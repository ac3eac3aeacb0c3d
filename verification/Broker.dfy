/** The durable broker: its tables, its transactions as functions on them, and the object that runs them. */
module Broker {
  import opened Wrappers
  import opened Text
  import opened Directory
  import opened Protocol

  datatype Config = Config(maxAttempts: int, retryBase: int, retryMax: int)

  // ---- acknowledgements ----

  datatype Outcome = Processed | RetryableFailed | TerminalFailed

  datatype AckBody = AckBody(
    schema: string,
    receiver: string,
    messageId: Uuid,
    leaseId: Uuid,
    issued: int,
    envelope: Digest<Envelope>,
    outcome: Outcome,
    signingKid: string)

  datatype Ack = Ack(body: AckBody, alg: string, kid: string, value: Signature<AckBody>)

  datatype AckCode = MalformedAck | UnsupportedAck | InvalidAckTime | UnauthorizedReceiver | InvalidAckSignature

  /** An acknowledgement is accepted from the receiver's active key; the key's window is not consulted. */
  function AckError(ack: Ack, keys: map<string, OwnedKey>, now: int): Option<AckCode> {
    var b := ack.body;
    if b.schema != "tribe-ack/v1" then Some(UnsupportedAck)
    else if !IsIdentifier(b.receiver) || !IsIdentifier(b.signingKid) then Some(MalformedAck)
    else if !b.messageId.HasVersion(7) || !b.leaseId.HasVersion(4) then Some(MalformedAck)
    else if !(-MAX_CLOCK_SKEW_MS <= b.issued - now <= MAX_CLOCK_SKEW_MS) then Some(InvalidAckTime)
    else if !IsDigest(b.envelope) then Some(MalformedAck)
    else if ack.alg != "Ed25519" || ack.kid != b.signingKid then Some(MalformedAck)
    else if b.signingKid !in keys || keys[b.signingKid].owner != b.receiver || !keys[b.signingKid].key.status.Active? then Some(UnauthorizedReceiver)
    else if ack.value.Malformed? then Some(MalformedAck)
    else if !Verifies(ack.value, keys[b.signingKid].key.publicKey, b) then Some(InvalidAckSignature)
    else None
  }

  // ---- tables ----

  datatype Lease = Lease(id: Uuid, until: int)

  datatype DeliveryState = Queued | Claimed | Acknowledged | DeadLetter

  datatype Note =
    | LeaseExpired
    | AttemptsSpentAtExpiry
    | MessageExpired
    | FailedTerminally
    | AttemptsSpent
    | FailedRetryably

  /** A message's identity: the sender's ID and the message ID it chose. */
  datatype MessageKey = MessageKey(sender: string, id: Uuid)

  datatype Delivery = Delivery(
    message: MessageKey,
    recipient: string,
    encryptionKid: string,
    state: DeliveryState,
    availableAt: int,
    lease: Option<Lease>,
    attempts: nat,
    note: Option<Note>,
    terminalAck: Option<Ack>,
    updatedAt: int)
  {
    predicate Terminal() {
      state.Acknowledged? || state.DeadLetter?
    }
  }

  datatype Message = Message(envelope: Envelope, receivedAt: int)

  datatype AckEvent = AckEvent(delivery: nat, outcome: Outcome)

  datatype OutState = Pending | Sending | Sent | OutDead

  /** What an endpoint answers to an accepted message. */
  datatype Receipt = Receipt(envelope: Digest<Envelope>, duplicate: bool)

  datatype OutRow = OutRow(
    envelope: Envelope,
    state: OutState,
    availableAt: int,
    lease: Option<Lease>,
    attempts: nat,
    receipt: Option<Receipt>,
    updatedAt: int)

  datatype Db = Db(
    highWater: Option<int>,
    messages: map<MessageKey, Message>,
    deliveries: map<nat, Delivery>,
    nextSeq: nat,
    acks: map<Digest<Ack>, AckEvent>,
    cursors: map<(string, string), int>,
    replays: map<(string, Uuid), int>,
    outbox: seq<OutRow>)

  const EMPTY := Db(None, map[], map[], 1, map[], map[], map[], [])

  datatype Failure =
    | InvalidArgument
    | ClockRollback
    | RequestReplay
    | Rejected(code: Code)
    | AckRejected(reason: AckCode)
    | MessageConflict
    | LeaseConflict
    | CursorConflict

  // ---- trusted time and authenticated requests ----

  function Observe(db: Db, now: int): Result<Db, Failure> {
    if !IsInteger(now, 0) then Err(InvalidArgument)
    else if db.highWater.Some? && now < db.highWater.value then Err(ClockRollback)
    else Ok(db.(highWater := Some(now)))
  }

  /** Rows that no longer matter at the given time are dropped. */
  function Prune(replays: map<(string, Uuid), int>, now: int): map<(string, Uuid), int> {
    map k | k in replays && now < replays[k] :: replays[k]
  }

  function Record(db: Db, agent: string, request: Uuid, now: int, expires: int): Result<Db, Failure> {
    if !IsIdentifier(agent) || !request.HasVersion(7) then Err(InvalidArgument)
    else if Observe(db, now).Err? then Err(Observe(db, now).error)
    else if (agent, request) in Prune(db.replays, now) then Err(RequestReplay)
    else Ok(Observe(db, now).value.(replays := Prune(db.replays, now)[(agent, request) := expires]))
  }

  // ---- admission ----

  function KeyOf(e: Envelope): MessageKey {
    MessageKey(e.body.senderId, e.body.messageId)
  }

  function NewDelivery(e: Envelope, r: Recipient, now: int): Delivery {
    Delivery(KeyOf(e), r.id, r.encryptionKid, Queued, now, None, 0, None, None, now)
  }

  /** The delivery rows of a new message: one per recipient, numbered onwards. */
  function NewDeliveries(next: nat, e: Envelope, recipients: seq<Recipient>, now: int): (r: map<nat, Delivery>)
    ensures forall s :: s in r <==> next <= s < next + |recipients|
    ensures forall s :: s in r ==> r[s] == NewDelivery(e, recipients[s - next], now)
  {
    if recipients == [] then map[]
    else
      var n := |recipients| - 1;
      NewDeliveries(next, e, recipients[..n], now)[next + n := NewDelivery(e, recipients[n], now)]
  }

  function Enqueue(db: Db, e: Envelope, c: Context, now: int): Result<(Db, Receipt), Failure> {
    if Observe(db, now).Err? then Err(Observe(db, now).error)
    else
      var db' := Observe(db, now).value;
      var code := BrokerError(e, c.(now := now));
      if code.Some? then Err(Rejected(code.value))
      else if KeyOf(e) in db.messages then
        if db.messages[KeyOf(e)].envelope != e then Err(MessageConflict) else Ok((db', Receipt(Sha256(e), true)))
      else
        Ok((db'.(
          messages := db.messages[KeyOf(e) := Message(e, now)],
          deliveries := db.deliveries + NewDeliveries(db.nextSeq, e, e.body.recipients, now),
          nextSeq := db.nextSeq + |e.body.recipients|), Receipt(Sha256(e), false)))
  }

  // ---- expiry and claiming ----

  /** A lapsed lease returns the delivery to the queue, or buries it when its attempts are spent. */
  function ExpireLease(cfg: Config, d: Delivery, now: int): Delivery {
    if !d.state.Claimed? || d.lease.None? || now < d.lease.value.until then d
    else if d.attempts >= cfg.maxAttempts then
      d.(state := DeadLetter, availableAt := now, lease := None, note := Some(AttemptsSpentAtExpiry), updatedAt := now)
    else d.(state := Queued, availableAt := now, lease := None, note := Some(LeaseExpired), updatedAt := now)
  }

  function ExpireMessage(messages: map<MessageKey, Message>, d: Delivery, now: int): Delivery {
    if !d.Terminal() && d.message in messages && messages[d.message].envelope.body.expires <= now
    then d.(state := DeadLetter, lease := None, note := Some(MessageExpired), updatedAt := now)
    else d
  }

  function ExpireRow(cfg: Config, messages: map<MessageKey, Message>, d: Delivery, now: int): Delivery {
    ExpireMessage(messages, ExpireLease(cfg, d, now), now)
  }

  function Expire(cfg: Config, db: Db, now: int): Db {
    db.(deliveries := map s | s in db.deliveries :: ExpireRow(cfg, db.messages, db.deliveries[s], now))
  }

  predicate Ready(db: Db, s: nat, recipient: string, now: int) {
    && s in db.deliveries
    && var d := db.deliveries[s];
    && d.recipient == recipient
    && d.state.Queued?
    && d.availableAt <= now
    && d.message in db.messages
    && now < db.messages[d.message].envelope.body.expires
  }

  /** The ready rows in ascending order. */
  function ReadyBelow(db: Db, recipient: string, now: int, n: nat): (r: seq<nat>)
    ensures forall i :: 0 <= i < |r| ==> r[i] < n && Ready(db, r[i], recipient, now)
    ensures forall i, j :: 0 <= i < j < |r| ==> r[i] < r[j]
    ensures forall s :: 0 <= s < n && Ready(db, s, recipient, now) ==> s in r
  {
    if n == 0 then []
    else
      var rest := ReadyBelow(db, recipient, now, n - 1);
      if Ready(db, n - 1, recipient, now) then rest + [n - 1] else rest
  }

  function Take(xs: seq<nat>, limit: nat): seq<nat> {
    if |xs| <= limit then xs else xs[..limit]
  }

  function ClaimRow(d: Delivery, lease: Lease, now: int): Delivery {
    d.(state := Claimed, lease := Some(lease), attempts := d.attempts + 1, updatedAt := now)
  }

  /** Leases the selected rows one after the other. */
  function ClaimRows(deliveries: map<nat, Delivery>, rows: seq<nat>, leases: seq<Uuid>, until: int, now: int): map<nat, Delivery>
    requires |rows| <= |leases| && forall i :: 0 <= i < |rows| ==> rows[i] in deliveries
    ensures ClaimRows(deliveries, rows, leases, until, now).Keys == deliveries.Keys
  {
    if rows == [] then deliveries
    else
      var n := |rows| - 1;
      var before := ClaimRows(deliveries, rows[..n], leases, until, now);
      before[rows[n] := ClaimRow(before[rows[n]], Lease(leases[n], until), now)]
  }

  predicate LeasesOk(leases: seq<Uuid>, n: nat) {
    n <= |leases| && forall i :: 0 <= i < n ==> leases[i].HasVersion(4)
  }

  predicate ClaimArgumentsOk(limit: int, leaseMs: int) {
    1 <= limit <= 100 && 1_000 <= leaseMs <= 15 * 60 * 1000
  }

  /** One delivery handed to a recipient under a lease. */
  datatype Claim = Claim(seqno: nat, key: MessageKey, envelope: Envelope, lease: Lease, attempt: nat)

  function ClaimsOf(db: Db, rows: seq<nat>, leases: seq<Uuid>, until: int): seq<Claim>
    requires |rows| <= |leases|
    requires forall i :: 0 <= i < |rows| ==> rows[i] in db.deliveries && db.deliveries[rows[i]].message in db.messages
  {
    seq(|rows|, i requires 0 <= i < |rows| => ClaimOf(db, rows[i], Lease(leases[i], until)))
  }

  function ClaimOf(db: Db, s: nat, lease: Lease): Claim
    requires s in db.deliveries && db.deliveries[s].message in db.messages
  {
    var d := db.deliveries[s];
    Claim(s, d.message, db.messages[d.message].envelope, lease, d.attempts + 1)
  }

  lemma {:induction false} ClaimRowsMeaning(deliveries: map<nat, Delivery>, rows: seq<nat>, leases: seq<Uuid>, until: int, now: int)
    requires |rows| <= |leases| && forall i :: 0 <= i < |rows| ==> rows[i] in deliveries
    requires forall i, j :: 0 <= i < j < |rows| ==> rows[i] < rows[j]
    ensures forall s :: s in deliveries && s !in rows ==> ClaimRows(deliveries, rows, leases, until, now)[s] == deliveries[s]
    ensures forall i :: 0 <= i < |rows| ==>
      ClaimRows(deliveries, rows, leases, until, now)[rows[i]] == ClaimRow(deliveries[rows[i]], Lease(leases[i], until), now)
  {
    if rows != [] {
      var front, last := rows[..|rows| - 1], rows[|rows| - 1];
      ClaimRowsMeaning(deliveries, front, leases, until, now);
      assert last !in front && forall s :: s in rows <==> s in front || s == last;
    }
  }

  lemma ClaimRowsOfNone(deliveries: map<nat, Delivery>, leases: seq<Uuid>, until: int, now: int)
    ensures ClaimRows(deliveries, [], leases, until, now) == deliveries
  {}

  lemma ClaimNextRow(deliveries: map<nat, Delivery>, rows: seq<nat>, n: nat, leases: seq<Uuid>, until: int, now: int)
    requires n < |rows| && n < |leases|
    requires forall i :: 0 <= i < |rows| ==> rows[i] in deliveries
    requires forall i, j :: 0 <= i < j < |rows| ==> rows[i] < rows[j]
    ensures ClaimRows(deliveries, rows[..n], leases, until, now)[rows[n]] == deliveries[rows[n]]
    ensures ClaimRows(deliveries, rows[..n + 1], leases, until, now)
      == ClaimRows(deliveries, rows[..n], leases, until, now)[rows[n] := ClaimRow(deliveries[rows[n]], Lease(leases[n], until), now)]
  {
    ClaimRowsMeaning(deliveries, rows[..n], leases, until, now);
    assert rows[n] !in rows[..n];
    assert rows[..n + 1][..n] == rows[..n];
  }

  /** The rows one claim selects: expired first, then the lowest ready numbers. */
  function Selected(cfg: Config, db: Db, recipient: string, limit: int, now: int): (r: seq<nat>)
    requires limit >= 0
    ensures |r| <= limit
    ensures forall i :: 0 <= i < |r| ==> Ready(Expire(cfg, db, now), r[i], recipient, now)
    ensures forall i, j :: 0 <= i < j < |r| ==> r[i] < r[j]
  {
    Take(ReadyBelow(Expire(cfg, db, now), recipient, now, db.nextSeq), limit)
  }

  function ClaimDeliveries(cfg: Config, db: Db, recipient: string, limit: int, leaseMs: int, now: int, leases: seq<Uuid>)
    : Result<(Db, seq<Claim>), Failure>
  {
    if !IsIdentifier(recipient) || !ClaimArgumentsOk(limit, leaseMs) then Err(InvalidArgument)
    else
      var expired := Expire(cfg, db, now);
      var rows := Selected(cfg, db, recipient, limit, now);
      if !LeasesOk(leases, |rows|) then Err(InvalidArgument)
      else
        Ok((expired.(deliveries := ClaimRows(expired.deliveries, rows, leases, now + leaseMs, now)),
            ClaimsOf(expired, rows, leases, now + leaseMs)))
  }

  // ---- acknowledging ----

  predicate Matches(db: Db, s: nat, b: AckBody) {
    && s in db.deliveries
    && var d := db.deliveries[s];
    && d.recipient == b.receiver
    && d.message.id == b.messageId
    && d.lease.Some?
    && d.lease.value.id == b.leaseId
    && d.message in db.messages
    && Sha256(db.messages[d.message].envelope) == b.envelope
  }

  function FindLeased(db: Db, b: AckBody, n: nat): (r: Option<nat>)
    ensures r.Some? ==> r.value < n && Matches(db, r.value, b)
    ensures r.None? ==> forall s :: 0 <= s < n ==> !Matches(db, s, b)
  {
    if n == 0 then None
    else
      var before := FindLeased(db, b, n - 1);
      if before.Some? then before else if Matches(db, n - 1, b) then Some(n - 1) else None
  }

  function Pow2(n: nat): (r: nat)
    ensures r >= 1
  {
    if n == 0 then 1 else 2 * Pow2(n - 1)
  }

  /** Exponential backoff with a ceiling. */
  function RetryDelay(cfg: Config, attempts: nat): int {
    var delay := cfg.retryBase * Pow2(if attempts == 0 then 0 else attempts - 1);
    if cfg.retryMax <= delay then cfg.retryMax else delay
  }

  function SettleRow(cfg: Config, d: Delivery, ack: Ack, now: int): Delivery {
    var settled := d.(lease := None, updatedAt := now);
    match ack.body.outcome
    case Processed => settled.(state := Acknowledged, availableAt := now, note := None, terminalAck := Some(ack))
    case TerminalFailed => settled.(state := DeadLetter, availableAt := now, note := Some(FailedTerminally), terminalAck := Some(ack))
    case RetryableFailed =>
      if d.attempts >= cfg.maxAttempts
      then settled.(state := DeadLetter, availableAt := now, note := Some(AttemptsSpent), terminalAck := Some(ack))
      else settled.(state := Queued, availableAt := now + RetryDelay(cfg, d.attempts), note := Some(FailedRetryably), terminalAck := None)
  }

  datatype AckReply = AckReply(cursor: nat, outcome: Outcome, duplicate: bool)

  function Acknowledge(cfg: Config, db: Db, ack: Ack, keys: map<string, OwnedKey>, now: int): Result<(Db, AckReply), Failure> {
    var code := AckError(ack, keys, now);
    if code.Some? then Err(AckRejected(code.value))
    else if Sha256(ack) in db.acks then
      Ok((db, AckReply(db.acks[Sha256(ack)].delivery, db.acks[Sha256(ack)].outcome, true)))
    else
      var row := FindLeased(db, ack.body, db.nextSeq);
      if row.None? then Err(LeaseConflict)
      else
        var d := db.deliveries[row.value];
        if !d.state.Claimed? || d.lease.value.until <= now then Err(LeaseConflict)
        else
          Ok((db.(
            acks := db.acks[Sha256(ack) := AckEvent(row.value, ack.body.outcome)],
            deliveries := db.deliveries[row.value := SettleRow(cfg, d, ack, now)]), AckReply(row.value, ack.body.outcome, false)))
  }

  function AdvanceCursor(db: Db, recipient: string, consumer: string, cursor: int): Result<Db, Failure> {
    if !IsIdentifier(recipient) || !IsIdentifier(consumer) || cursor < 0 then Err(InvalidArgument)
    else if cursor != 0 && !(cursor in db.deliveries && db.deliveries[cursor].recipient == recipient && db.deliveries[cursor].Terminal())
      then Err(CursorConflict)
    else if (recipient, consumer) in db.cursors && cursor < db.cursors[(recipient, consumer)] then Err(CursorConflict)
    else Ok(db.(cursors := db.cursors[(recipient, consumer) := cursor]))
  }

  // ---- retention ----

  predicate Purgeable(db: Db, k: MessageKey, before: int) {
    forall s :: s in db.deliveries && db.deliveries[s].message == k ==> db.deliveries[s].Terminal() && db.deliveries[s].updatedAt < before
  }

  /** Deleting a message deletes its deliveries, and deleting a delivery deletes its acknowledgements. */
  function Purge(db: Db, before: int): Db {
    var messages := map k | k in db.messages && !Purgeable(db, k, before) :: db.messages[k];
    db.(
      messages := messages,
      deliveries := map s | s in db.deliveries && !(db.deliveries[s].message in db.messages && Purgeable(db, db.deliveries[s].message, before)) :: db.deliveries[s],
      acks := map h | h in db.acks
        && !(db.acks[h].delivery in db.deliveries
             && db.deliveries[db.acks[h].delivery].message in db.messages
             && Purgeable(db, db.deliveries[db.acks[h].delivery].message, before)) :: db.acks[h])
  }

  function Maintain(cfg: Config, db: Db, before: Option<int>, now: int): Db {
    if before.None? then Expire(cfg, db, now) else Purge(Expire(cfg, db, now), before.value)
  }

  // ---- the sender's outbox ----

  function FindStaged(outbox: seq<OutRow>, k: MessageKey): (r: Option<nat>)
    ensures r.Some? ==> r.value < |outbox| && KeyOf(outbox[r.value].envelope) == k
    ensures r.None? ==> forall i :: 0 <= i < |outbox| ==> KeyOf(outbox[i].envelope) != k
  {
    if outbox == [] then None
    else
      var before := FindStaged(outbox[..|outbox| - 1], k);
      if before.Some? then before
      else if KeyOf(outbox[|outbox| - 1].envelope) == k then Some(|outbox| - 1) else None
  }

  datatype Staged = Staged(id: nat, duplicate: bool)

  function Stage(db: Db, e: Envelope, now: int): Result<(Db, Staged), Failure> {
    var code := StructureError(e);
    if code.Some? then Err(Rejected(code.value))
    else
      var row := FindStaged(db.outbox, KeyOf(e));
      if row.None? then Ok((db.(outbox := db.outbox + [OutRow(e, Pending, now, None, 0, None, now)]), Staged(|db.outbox|, false)))
      else if db.outbox[row.value].envelope != e then Err(MessageConflict)
      else Ok((db, Staged(row.value, true)))
  }

  function ExpireOutRow(cfg: Config, r: OutRow, now: int): OutRow {
    if !r.state.Sending? || r.lease.None? || now < r.lease.value.until then r
    else r.(state := if r.attempts >= cfg.maxAttempts then OutDead else Pending, availableAt := now, lease := None, updatedAt := now)
  }

  function ExpireOutbox(cfg: Config, outbox: seq<OutRow>, now: int): seq<OutRow> {
    seq(|outbox|, i requires 0 <= i < |outbox| => ExpireOutRow(cfg, outbox[i], now))
  }

  predicate OutReady(outbox: seq<OutRow>, i: nat, only: Option<nat>, now: int) {
    i < |outbox| && outbox[i].state.Pending? && outbox[i].availableAt <= now && (only.Some? ==> i == only.value)
  }

  function OutReadyBelow(outbox: seq<OutRow>, only: Option<nat>, now: int, n: nat): (r: seq<nat>)
    ensures forall i :: 0 <= i < |r| ==> r[i] < n && OutReady(outbox, r[i], only, now)
    ensures forall i, j :: 0 <= i < j < |r| ==> r[i] < r[j]
  {
    if n == 0 then []
    else
      var rest := OutReadyBelow(outbox, only, now, n - 1);
      if OutReady(outbox, n - 1, only, now) then rest + [n - 1] else rest
  }

  function ClaimOutRow(r: OutRow, lease: Lease, now: int): OutRow {
    r.(state := Sending, lease := Some(lease), attempts := r.attempts + 1, updatedAt := now)
  }

  function ClaimOutRows(outbox: seq<OutRow>, rows: seq<nat>, leases: seq<Uuid>, until: int, now: int): (r: seq<OutRow>)
    requires |rows| <= |leases| && forall i :: 0 <= i < |rows| ==> rows[i] < |outbox|
    ensures |r| == |outbox|
  {
    if rows == [] then outbox
    else
      var n := |rows| - 1;
      var before := ClaimOutRows(outbox, rows[..n], leases, until, now);
      before[rows[n] := ClaimOutRow(before[rows[n]], Lease(leases[n], until), now)]
  }

  datatype OutClaim = OutClaim(id: nat, envelope: Envelope, lease: Lease)

  function OutClaimsOf(outbox: seq<OutRow>, rows: seq<nat>, leases: seq<Uuid>, until: int): seq<OutClaim>
    requires |rows| <= |leases| && forall i :: 0 <= i < |rows| ==> rows[i] < |outbox|
  {
    seq(|rows|, i requires 0 <= i < |rows| => OutClaim(rows[i], outbox[rows[i]].envelope, Lease(leases[i], until)))
  }

  function OutSelected(cfg: Config, db: Db, limit: int, only: Option<nat>, now: int): (r: seq<nat>)
    requires limit >= 0
    ensures |r| <= limit
    ensures forall i :: 0 <= i < |r| ==> OutReady(ExpireOutbox(cfg, db.outbox, now), r[i], only, now)
    ensures forall i, j :: 0 <= i < j < |r| ==> r[i] < r[j]
  {
    Take(OutReadyBelow(ExpireOutbox(cfg, db.outbox, now), only, now, |db.outbox|), limit)
  }

  function ClaimOutbox(cfg: Config, db: Db, limit: int, leaseMs: int, only: Option<nat>, now: int, leases: seq<Uuid>)
    : Result<(Db, seq<OutClaim>), Failure>
  {
    if !ClaimArgumentsOk(limit, leaseMs) then Err(InvalidArgument)
    else
      var expired := ExpireOutbox(cfg, db.outbox, now);
      var rows := OutSelected(cfg, db, limit, only, now);
      if !LeasesOk(leases, |rows|) then Err(InvalidArgument)
      else
        Ok((db.(outbox := ClaimOutRows(expired, rows, leases, now + leaseMs, now)), OutClaimsOf(expired, rows, leases, now + leaseMs)))
  }

  function CompleteRow(cfg: Config, r: OutRow, receipt: Option<Receipt>, terminal: bool, now: int): OutRow {
    var done := r.(lease := None, updatedAt := now, receipt := receipt);
    if receipt.Some? then done.(state := Sent, availableAt := now)
    else if terminal || r.attempts >= cfg.maxAttempts then done.(state := OutDead, availableAt := now)
    else done.(state := Pending, availableAt := now + RetryDelay(cfg, r.attempts))
  }

  function CompleteOutbox(cfg: Config, db: Db, id: nat, lease: Uuid, receipt: Option<Receipt>, terminal: bool, now: int): Result<(Db, OutState), Failure> {
    if id >= |db.outbox| then Err(LeaseConflict)
    else
      var r := db.outbox[id];
      if !r.state.Sending? || r.lease.None? || r.lease.value.id != lease || r.lease.value.until <= now then Err(LeaseConflict)
      else
        var row := CompleteRow(cfg, r, receipt, terminal, now);
        Ok((db.(outbox := db.outbox[id := row]), row.state))
  }
}
