/** The broker object. Each method is one transaction: it commits what the matching function says, or changes nothing. */
module BrokerStore {
  import opened Wrappers
  import opened Text
  import opened Directory
  import opened Protocol
  import opened Broker

  lemma InsertNone(deliveries: map<nat, Delivery>, next: nat, e: Envelope, now: int)
    ensures deliveries + NewDeliveries(next, e, [], now) == deliveries
  {
  }

  lemma InsertNext(deliveries: map<nat, Delivery>, next: nat, e: Envelope, recipients: seq<Recipient>, n: nat, now: int)
    requires n < |recipients|
    ensures deliveries + NewDeliveries(next, e, recipients[..n + 1], now)
      == (deliveries + NewDeliveries(next, e, recipients[..n], now))[next + n := NewDelivery(e, recipients[n], now)]
  {
    hide NewDelivery;
    var longer := recipients[..n + 1];
    assert longer[..n] == recipients[..n] && longer[n] == recipients[n];
    assert NewDeliveries(next, e, longer, now) == NewDeliveries(next, e, longer[..n], now)[next + n := NewDelivery(e, longer[n], now)];
  }

  class SQLiteBroker {
    const cfg: Config
    var highWater: Option<int>
    var messages: map<MessageKey, Message>
    var deliveries: map<nat, Delivery>
    var nextSeq: nat
    var acks: map<Digest<Ack>, AckEvent>
    var cursors: map<(string, string), int>
    var replays: map<(string, Uuid), int>
    var outbox: seq<OutRow>

    function State(): Db
      reads this
    {
      Db(highWater, messages, deliveries, nextSeq, acks, cursors, replays, outbox)
    }

    /** The transaction either committed the expected tables with the expected answer, or rolled back. */
    ghost predicate Did<T>(before: Db, expected: Result<(Db, T), Failure>, r: Result<T, Failure>)
      reads this
    {
      if expected.Ok? then r == Ok(expected.value.1) && State() == expected.value.0
      else r == Err(expected.error) && State() == before
    }

    /** The same for a transaction without an answer. */
    ghost predicate DidSilently(before: Db, expected: Result<Db, Failure>, r: Option<Failure>)
      reads this
    {
      if expected.Ok? then r == None && State() == expected.value
      else r == Some(expected.error) && State() == before
    }

    constructor (cfg: Config)
      ensures State() == EMPTY && this.cfg == cfg
    {
      this.cfg := cfg;
      highWater := None;
      messages := map[];
      deliveries := map[];
      nextSeq := 1;
      acks := map[];
      cursors := map[];
      replays := map[];
      outbox := [];
    }

    method ObserveTrustedTime(now: int) returns (r: Option<Failure>)
      modifies this`highWater
      ensures DidSilently(old(State()), Observe(old(State()), now), r)
    {
      if !IsInteger(now, 0) {
        return Some(InvalidArgument);
      }
      if highWater.Some? && now < highWater.value {
        return Some(ClockRollback);
      }
      highWater := Some(now);
      r := None;
    }

    method RecordAuthenticatedRequest(agent: string, request: Uuid, now: int, expires: int) returns (r: Option<Failure>)
      modifies this`highWater, this`replays
      ensures DidSilently(old(State()), Record(old(State()), agent, request, now, expires), r)
    {
      if !IsIdentifier(agent) || !request.HasVersion(7) {
        return Some(InvalidArgument);
      }
      var savedHighWater, savedReplays := highWater, replays;
      r := ObserveTrustedTime(now);
      if r.Some? {
        return;
      }
      replays := map k | k in replays && now < replays[k] :: replays[k];
      if (agent, request) in replays {
        highWater, replays := savedHighWater, savedReplays;
        return Some(RequestReplay);
      }
      replays := replays[(agent, request) := expires];
    }

    /** One row per recipient, numbered onwards. */
    method InsertDeliveries(e: Envelope, now: int)
      modifies this`deliveries, this`nextSeq
      ensures deliveries == old(deliveries) + NewDeliveries(old(nextSeq), e, e.body.recipients, now)
      ensures nextSeq == old(nextSeq) + |e.body.recipients|
    {
      hide NewDeliveries, NewDelivery;
      var recipients := e.body.recipients;
      assert recipients[..0] == [];
      InsertNone(deliveries, nextSeq, e, now);
      for n := 0 to |recipients|
        invariant nextSeq == old(nextSeq) + n
        invariant deliveries == old(deliveries) + NewDeliveries(old(nextSeq), e, recipients[..n], now)
      {
        InsertNext(old(deliveries), old(nextSeq), e, recipients, n, now);
        deliveries := deliveries[nextSeq := NewDelivery(e, recipients[n], now)];
        nextSeq := nextSeq + 1;
      }
      assert recipients[..|recipients|] == recipients;
    }

    method EnqueueEnvelope(e: Envelope, c: Context, now: int) returns (r: Result<Receipt, Failure>)
      modifies this`highWater, this`messages, this`deliveries, this`nextSeq
      ensures Did(old(State()), Enqueue(old(State()), e, c, now), r)
    {
      hide BrokerError;
      var savedHighWater := highWater;
      var clock := ObserveTrustedTime(now);
      if clock.Some? {
        return Err(clock.value);
      }
      var code := BrokerError(e, c.(now := now));
      if code.Some? {
        highWater := savedHighWater;
        return Err(Rejected(code.value));
      }
      var key := KeyOf(e);
      if key in messages {
        if messages[key].envelope != e {
          highWater := savedHighWater;
          return Err(MessageConflict);
        }
        return Ok(Receipt(Sha256(e), true));
      }
      messages := messages[key := Message(e, now)];
      InsertDeliveries(e, now);
      r := Ok(Receipt(Sha256(e), false));
    }

    /** Leases the selected rows one by one, skipping any that is no longer queued. */
    method LeaseRows(rows: seq<nat>, leases: seq<Uuid>, until: int, now: int) returns (r: Result<seq<Claim>, Failure>)
      requires forall i :: 0 <= i < |rows| ==>
        rows[i] in deliveries && deliveries[rows[i]].state.Queued? && deliveries[rows[i]].message in messages
      requires forall i, j :: 0 <= i < j < |rows| ==> rows[i] < rows[j]
      modifies this`deliveries
      ensures r.Ok? <==> LeasesOk(leases, |rows|)
      ensures r.Err? ==> r.error == InvalidArgument
      ensures r.Ok? ==> deliveries == ClaimRows(old(deliveries), rows, leases, until, now)
      ensures r.Ok? ==> r.value == ClaimsOf(old(State()), rows, leases, until)
    {
      hide ClaimRows;
      var claimed: seq<Claim> := [];
      assert rows[..0] == [];
      ClaimRowsOfNone(deliveries, leases, until, now);
      for n := 0 to |rows|
        invariant LeasesOk(leases, n)
        invariant claimed == ClaimsOf(old(State()), rows[..n], leases, until)
        invariant deliveries == ClaimRows(old(deliveries), rows[..n], leases, until, now)
      {
        if n == |leases| || !leases[n].HasVersion(4) {
          return Err(InvalidArgument);
        }
        ClaimNextRow(old(deliveries), rows, n, leases, until, now);
        var lease := Lease(leases[n], until);
        if deliveries[rows[n]].state.Queued? {
          claimed := claimed + [ClaimOf(State(), rows[n], lease)];
          deliveries := deliveries[rows[n] := ClaimRow(deliveries[rows[n]], lease, now)];
        }
      }
      assert rows[..|rows|] == rows;
      r := Ok(claimed);
    }

    method ClaimBatch(recipient: string, limit: int, leaseMs: int, now: int, leases: seq<Uuid>) returns (r: Result<seq<Claim>, Failure>)
      modifies this`deliveries
      ensures Did(old(State()), ClaimDeliveries(cfg, old(State()), recipient, limit, leaseMs, now, leases), r)
    {
      hide ExpireRow;
      if !IsIdentifier(recipient) || !ClaimArgumentsOk(limit, leaseMs) {
        return Err(InvalidArgument);
      }
      var saved := deliveries;
      deliveries := map s | s in deliveries :: ExpireRow(cfg, messages, deliveries[s], now);
      ghost var expired := Expire(cfg, old(State()), now);
      assert State() == expired;
      var rows := Take(ReadyBelow(State(), recipient, now, nextSeq), limit);
      assert rows == Selected(cfg, old(State()), recipient, limit, now);
      r := LeaseRows(rows, leases, now + leaseMs, now);
      if r.Err? {
        deliveries := saved;
      }
    }

    method AcknowledgeDelivery(ack: Ack, keys: map<string, OwnedKey>, now: int) returns (r: Result<AckReply, Failure>)
      modifies this`deliveries, this`acks
      ensures Did(old(State()), Acknowledge(cfg, old(State()), ack, keys, now), r)
    {
      hide AckError;
      var code := AckError(ack, keys, now);
      if code.Some? {
        return Err(AckRejected(code.value));
      }
      var hash := Sha256(ack);
      if hash in acks {
        return Ok(AckReply(acks[hash].delivery, acks[hash].outcome, true));
      }
      var row := FindLeased(State(), ack.body, nextSeq);
      if row.None? {
        return Err(LeaseConflict);
      }
      var d := deliveries[row.value];
      if !d.state.Claimed? || d.lease.value.until <= now {
        return Err(LeaseConflict);
      }
      acks := acks[hash := AckEvent(row.value, ack.body.outcome)];
      deliveries := deliveries[row.value := SettleRow(cfg, d, ack, now)];
      r := Ok(AckReply(row.value, ack.body.outcome, false));
    }

    method MoveCursor(recipient: string, consumer: string, cursor: int) returns (r: Option<Failure>)
      modifies this`cursors
      ensures DidSilently(old(State()), AdvanceCursor(old(State()), recipient, consumer, cursor), r)
    {
      if !IsIdentifier(recipient) || !IsIdentifier(consumer) || cursor < 0 {
        return Some(InvalidArgument);
      }
      if cursor != 0 {
        var owned := cursor in deliveries && deliveries[cursor].recipient == recipient && deliveries[cursor].Terminal();
        if !owned {
          return Some(CursorConflict);
        }
      }
      if (recipient, consumer) in cursors && cursor < cursors[(recipient, consumer)] {
        return Some(CursorConflict);
      }
      cursors := cursors[(recipient, consumer) := cursor];
      r := None;
    }

    method StageOutbox(e: Envelope, now: int) returns (r: Result<Staged, Failure>)
      modifies this`outbox
      ensures Did(old(State()), Stage(old(State()), e, now), r)
    {
      var code := ValidateStructure(e);
      hide StructureError;
      if code.Some? {
        return Err(Rejected(code.value));
      }
      var row := FindStaged(outbox, KeyOf(e));
      if row.Some? {
        if outbox[row.value].envelope != e {
          return Err(MessageConflict);
        }
        return Ok(Staged(row.value, true));
      }
      r := Ok(Staged(|outbox|, false));
      outbox := outbox + [OutRow(e, Pending, now, None, 0, None, now)];
    }

    /** Leases the selected outbox rows one by one. */
    method LeaseOutRows(rows: seq<nat>, leases: seq<Uuid>, until: int, now: int) returns (r: Result<seq<OutClaim>, Failure>)
      requires forall i :: 0 <= i < |rows| ==> rows[i] < |outbox|
      modifies this`outbox
      ensures r.Ok? <==> LeasesOk(leases, |rows|)
      ensures r.Err? ==> r.error == InvalidArgument
      ensures r.Ok? ==> outbox == ClaimOutRows(old(outbox), rows, leases, until, now)
      ensures r.Ok? ==> r.value == OutClaimsOf(old(outbox), rows, leases, until)
    {
      var claimed: seq<OutClaim> := [];
      for n := 0 to |rows|
        invariant LeasesOk(leases, n)
        invariant claimed == OutClaimsOf(old(outbox), rows[..n], leases, until)
        invariant outbox == ClaimOutRows(old(outbox), rows[..n], leases, until, now)
        invariant forall i :: 0 <= i < |outbox| ==> outbox[i].envelope == old(outbox)[i].envelope
      {
        if n == |leases| || !leases[n].HasVersion(4) {
          return Err(InvalidArgument);
        }
        assert rows[..n + 1][..n] == rows[..n];
        var lease := Lease(leases[n], until);
        claimed := claimed + [OutClaim(rows[n], outbox[rows[n]].envelope, lease)];
        outbox := outbox[rows[n] := ClaimOutRow(outbox[rows[n]], lease, now)];
      }
      assert rows[..|rows|] == rows;
      r := Ok(claimed);
    }

    method ClaimOutboxBatch(limit: int, leaseMs: int, only: Option<nat>, now: int, leases: seq<Uuid>)
      returns (r: Result<seq<OutClaim>, Failure>)
      modifies this`outbox
      ensures Did(old(State()), ClaimOutbox(cfg, old(State()), limit, leaseMs, only, now, leases), r)
    {
      hide ExpireOutRow;
      if !ClaimArgumentsOk(limit, leaseMs) {
        return Err(InvalidArgument);
      }
      var saved := outbox;
      outbox := ExpireOutbox(cfg, outbox, now);
      ghost var expired := outbox;
      var rows := Take(OutReadyBelow(outbox, only, now, |outbox|), limit);
      assert rows == OutSelected(cfg, old(State()), limit, only, now);
      r := LeaseOutRows(rows, leases, now + leaseMs, now);
      if r.Err? {
        outbox := saved;
      }
    }

    method CompleteOutboxRow(id: nat, lease: Uuid, receipt: Option<Receipt>, terminal: bool, now: int) returns (r: Result<OutState, Failure>)
      modifies this`outbox
      ensures Did(old(State()), CompleteOutbox(cfg, old(State()), id, lease, receipt, terminal, now), r)
    {
      if id >= |outbox| {
        return Err(LeaseConflict);
      }
      var row := outbox[id];
      if !row.state.Sending? || row.lease.None? || row.lease.value.id != lease || row.lease.value.until <= now {
        return Err(LeaseConflict);
      }
      var done := CompleteRow(cfg, row, receipt, terminal, now);
      outbox := outbox[id := done];
      r := Ok(done.state);
    }

    method Maintenance(before: Option<int>, now: int)
      modifies this`messages, this`deliveries, this`acks
      ensures State() == Maintain(cfg, old(State()), before, now)
    {
      hide ExpireRow;
      deliveries := map s | s in deliveries :: ExpireRow(cfg, messages, deliveries[s], now);
      if before.Some? {
        var purged := Purge(State(), before.value);
        messages, deliveries, acks := purged.messages, purged.deliveries, purged.acks;
      }
    }
  }
}
