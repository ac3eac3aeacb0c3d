/** The sender's side: endpoint fallback for one envelope, and flushing of due outbox rows. */
module Sender {
  import opened Wrappers
  import opened Protocol
  import opened Broker
  import opened BrokerStore
  import opened OutboxMeasure
  import Service

  const SEND_LEASE_MS := 60_000

  /** How one endpoint answers: not at all or with a server error, with a refusal, or with a receipt. */
  datatype Answer = Unavailable | Refused | Accepted(receipt: Receipt)

  datatype SendFailure =
    | NoEndpoints
    | LocalityViolated
    | BrokerFailed(failure: Failure)
    | LeasedElsewhere
    | EndpointRefused
    | AllUnavailable

  predicate FirstAnswer(answers: seq<Answer>, i: int) {
    0 <= i < |answers| && !answers[i].Unavailable? && forall j :: 0 <= j < i ==> answers[j].Unavailable?
  }

  /** Endpoints are tried in order until one answers. */
  function Decisive(answers: seq<Answer>): (r: Answer)
    ensures r.Unavailable? ==> forall i :: 0 <= i < |answers| ==> answers[i].Unavailable?
    ensures !r.Unavailable? ==> exists i :: FirstAnswer(answers, i) && answers[i] == r
  {
    if answers == [] then Unavailable
    else
      var n := |answers| - 1;
      var before := Decisive(answers[..n]);
      assert forall i :: FirstAnswer(answers[..n], i) ==> FirstAnswer(answers, i);
      assert before.Unavailable? && !answers[n].Unavailable? ==> FirstAnswer(answers, n);
      if before.Unavailable? then answers[n] else before
  }

  lemma {:induction false} DecisiveStays(answers: seq<Answer>, n: nat)
    requires n <= |answers| && !Decisive(answers[..n]).Unavailable?
    ensures Decisive(answers) == Decisive(answers[..n])
  {
    if n < |answers| {
      assert answers[..|answers| - 1][..n] == answers[..n];
      DecisiveStays(answers[..|answers| - 1], n);
    } else {
      assert answers[..n] == answers;
    }
  }

  /** How a claimed row is completed after its endpoints answered. */
  function ReceiptOf(a: Answer): Option<Receipt> {
    if a.Accepted? then Some(a.receipt) else None
  }

  function Close(cfg: Config, db: Db, claim: OutClaim, a: Answer, now: int): Result<Db, Failure> {
    var r := CompleteOutbox(cfg, db, claim.id, claim.lease.id, ReceiptOf(a), a.Refused?, now);
    if r.Ok? then Ok(r.value.0) else Err(r.error)
  }

  datatype Sent = Sent(db: Db, result: Result<Receipt, SendFailure>)

  function Send(cfg: Config, db: Db, e: Envelope, answers: seq<Answer>, local: set<string>, now: int, leases: seq<Uuid>): Sent {
    if answers == [] then Sent.Sent(db, Err(NoEndpoints))
    else if !Service.LocalityOk(e.body.senderId, e.body.recipients, local) then Sent.Sent(db, Err(LocalityViolated))
    else if Stage(db, e, now).Err? then Sent.Sent(db, Err(BrokerFailed(Stage(db, e, now).error)))
    else
      var (staged, row) := Stage(db, e, now).value;
      var claimed := ClaimOutbox(cfg, staged, 1, SEND_LEASE_MS, Some(row.id), now, leases);
      if claimed.Err? then Sent.Sent(staged, Err(BrokerFailed(claimed.error)))
      else if claimed.value.1 == [] then Sent.Sent(claimed.value.0, Err(LeasedElsewhere))
      else
        var a := Decisive(answers);
        var closed := Close(cfg, claimed.value.0, claimed.value.1[0], a, now);
        if closed.Err? then Sent.Sent(claimed.value.0, Err(BrokerFailed(closed.error)))
        else Sent.Sent(closed.value, match a case Accepted(receipt) => Ok(receipt) case Refused => Err(EndpointRefused) case Unavailable => Err(AllUnavailable))
  }

  /** Stages, claims and posts one envelope, endpoint after endpoint. */
  method SendWithFallback(outbox: SQLiteBroker, e: Envelope, answers: seq<Answer>, local: set<string>, now: int, leases: seq<Uuid>)
    returns (r: Result<Receipt, SendFailure>)
    modifies outbox
    ensures outbox.State() == Send(outbox.cfg, old(outbox.State()), e, answers, local, now, leases).db
    ensures r == Send(outbox.cfg, old(outbox.State()), e, answers, local, now, leases).result
  {
    hide Stage, ClaimOutbox, CompleteOutbox, Service.LocalityOk;
    if answers == [] {
      return Err(NoEndpoints);
    }
    if !Service.LocalityOk(e.body.senderId, e.body.recipients, local) {
      return Err(LocalityViolated);
    }
    var staged := outbox.StageOutbox(e, now);
    if staged.Err? {
      return Err(BrokerFailed(staged.error));
    }
    var claimed := outbox.ClaimOutboxBatch(1, SEND_LEASE_MS, Some(staged.value.id), now, leases);
    if claimed.Err? {
      return Err(BrokerFailed(claimed.error));
    }
    if claimed.value == [] {
      return Err(LeasedElsewhere);
    }
    var claim := claimed.value[0];
    ghost var before := outbox.State();
    for n := 0 to |answers|
      invariant outbox.State() == before
      invariant Decisive(answers[..n]).Unavailable?
    {
      assert answers[..n + 1][..n] == answers[..n];
      if !answers[n].Unavailable? {
        DecisiveStays(answers, n + 1);
      }
      match answers[n]
      case Unavailable =>
      case Refused =>
        var closed := outbox.CompleteOutboxRow(claim.id, claim.lease.id, None, true, now);
        return Err(if closed.Err? then BrokerFailed(closed.error) else EndpointRefused);
      case Accepted(receipt) =>
        var closed := outbox.CompleteOutboxRow(claim.id, claim.lease.id, Some(receipt), false, now);
        if closed.Err? {
          return Err(BrokerFailed(closed.error));
        }
        return Ok(receipt);
    }
    assert answers[..|answers|] == answers;
    var closed := outbox.CompleteOutboxRow(claim.id, claim.lease.id, None, false, now);
    r := Err(if closed.Err? then BrokerFailed(closed.error) else AllUnavailable);
  }

  // ---- flushing ----

  /** What the routes give for a claimed envelope: no endpoint at all, or the endpoints' answers in order. */
  datatype Routed = NoRoute | Via(answers: seq<Answer>)

  /** A row without route, or one that would leave the machine against its locality, is refused without a request. */
  function AnswerFor(e: Envelope, routed: Routed, local: set<string>): Answer {
    if !Service.LocalityOk(e.body.senderId, e.body.recipients, local) then Refused
    else if routed.NoRoute? || routed.answers == [] then Refused
    else Decisive(routed.answers)
  }

  datatype Flushed = Flushed(db: Db, sent: seq<nat>, pending: seq<nat>, dead: seq<nat>, failure: Option<Failure>)

  function CloseAll(cfg: Config, db: Db, claims: seq<OutClaim>, routes: seq<Routed>, local: set<string>, now: int): Flushed
    requires |routes| == |claims|
  {
    if claims == [] then Flushed(db, [], [], [], None)
    else
      var n := |claims| - 1;
      var before := CloseAll(cfg, db, claims[..n], routes[..n], local, now);
      if before.failure.Some? then before
      else
        var a := AnswerFor(claims[n].envelope, routes[n], local);
        var closed := Close(cfg, before.db, claims[n], a, now);
        if closed.Err? then before.(failure := Some(closed.error))
        else
          match a
          case Accepted(_) => before.(db := closed.value, sent := before.sent + [claims[n].id])
          case Refused => before.(db := closed.value, dead := before.dead + [claims[n].id])
          case Unavailable => before.(db := closed.value, pending := before.pending + [claims[n].id])
  }

  lemma {:induction false} CloseAllStops(cfg: Config, db: Db, claims: seq<OutClaim>, routes: seq<Routed>, local: set<string>, now: int, n: nat)
    requires |routes| == |claims| && n <= |claims|
    requires CloseAll(cfg, db, claims[..n], routes[..n], local, now).failure.Some?
    ensures CloseAll(cfg, db, claims, routes, local, now) == CloseAll(cfg, db, claims[..n], routes[..n], local, now)
  {
    hide Close, AnswerFor;
    if n < |claims| {
      var m := |claims| - 1;
      assert claims[..m][..n] == claims[..n] && routes[..m][..n] == routes[..n];
      CloseAllStops(cfg, db, claims[..m], routes[..m], local, now, n);
    } else {
      assert claims[..n] == claims && routes[..n] == routes;
    }
  }

  /** Claims the due rows and settles each one by its own answer. routes gives, per row, what the network would answer. */
  method FlushOutbox(outbox: SQLiteBroker, limit: int, routes: map<nat, Routed>, local: set<string>, now: int, leases: seq<Uuid>)
    returns (r: Result<(seq<nat>, seq<nat>, seq<nat>), Failure>)
    modifies outbox
    ensures var claimed := ClaimOutbox(outbox.cfg, old(outbox.State()), limit, SEND_LEASE_MS, None, now, leases);
      if claimed.Err? then r == Err(claimed.error) && outbox.State() == old(outbox.State())
      else
        var flushed := CloseAll(outbox.cfg, claimed.value.0, claimed.value.1, RoutesOf(claimed.value.1, routes), local, now);
        && outbox.State() == flushed.db
        && r == if flushed.failure.Some? then Err(flushed.failure.value) else Ok((flushed.sent, flushed.pending, flushed.dead))
  {
    hide ClaimOutbox, CompleteOutbox, AnswerFor;
    var claimed := outbox.ClaimOutboxBatch(limit, SEND_LEASE_MS, None, now, leases);
    if claimed.Err? {
      return Err(claimed.error);
    }
    ghost var start := outbox.State();
    var claims, answers := claimed.value, RoutesOf(claimed.value, routes);
    var sent, pending, dead := [], [], [];
    for n := 0 to |claims|
      invariant CloseAll(outbox.cfg, start, claims[..n], answers[..n], local, now) == Flushed(outbox.State(), sent, pending, dead, None)
    {
      assert claims[..n + 1][..n] == claims[..n] && answers[..n + 1][..n] == answers[..n];
      var a := AnswerFor(claims[n].envelope, answers[n], local);
      var closed := outbox.CompleteOutboxRow(claims[n].id, claims[n].lease.id, ReceiptOf(a), a.Refused?, now);
      if closed.Err? {
        CloseAllStops(outbox.cfg, start, claims, answers, local, now, n + 1);
        return Err(closed.error);
      }
      match a
      case Accepted(_) => sent := sent + [claims[n].id];
      case Refused => dead := dead + [claims[n].id];
      case Unavailable => pending := pending + [claims[n].id];
    }
    assert claims[..|claims|] == claims && answers[..|answers|] == answers;
    r := Ok((sent, pending, dead));
  }

  function RoutesOf(claims: seq<OutClaim>, routes: map<nat, Routed>): (r: seq<Routed>)
    ensures |r| == |claims|
  {
    seq(|claims|, i requires 0 <= i < |claims| => if claims[i].id in routes then routes[claims[i].id] else NoRoute)
  }

  // ---- what sending and flushing achieve ----

  /** The row is claimed under this claim's lease, which has not ended. */
  predicate Leased(db: Db, claim: OutClaim, now: int) {
    && claim.id < |db.outbox|
    && db.outbox[claim.id].state.Sending?
    && db.outbox[claim.id].lease == Some(claim.lease)
    && now < claim.lease.until
    && db.outbox[claim.id].envelope == claim.envelope
  }

  /** Right after claiming, every claim is leased for a minute, and no row is claimed twice. */
  lemma ClaimsAreLeased(cfg: Config, db: Db, limit: int, only: Option<nat>, now: int, leases: seq<Uuid>)
    requires ClaimOutbox(cfg, db, limit, SEND_LEASE_MS, only, now, leases).Ok?
    ensures var (claimed, claims) := ClaimOutbox(cfg, db, limit, SEND_LEASE_MS, only, now, leases).value;
      && (forall i :: 0 <= i < |claims| ==> Leased(claimed, claims[i], now) && claims[i].lease.until == now + 60_000)
      && Separate(claims)
  {
    hide ClaimOutRows, OutSelected, ExpireOutRow;
    var expired := ExpireOutbox(cfg, db.outbox, now);
    var rows := OutSelected(cfg, db, limit, only, now);
    ClaimOutRowsMeaning(expired, rows, leases, now + SEND_LEASE_MS, now);
  }

  /** The row ended as its answer asks. */
  predicate SettledBy(cfg: Config, before: OutRow, after: OutRow, a: Answer) {
    && after.envelope == before.envelope
    && (after.state.Sent? <==> a.Accepted?)
    && (a.Accepted? ==> after.receipt == Some(a.receipt))
    && (after.state.OutDead? <==> a.Refused? || (a.Unavailable? && before.attempts >= cfg.maxAttempts))
    && !after.state.Sending?
  }

  /** Settling one leased row never conflicts, and gives exactly the state its answer asks for. */
  lemma CloseLeased(cfg: Config, db: Db, claim: OutClaim, a: Answer, now: int)
    requires Leased(db, claim, now)
    ensures Close(cfg, db, claim, a, now).Ok?
    ensures var r := Close(cfg, db, claim, a, now).value;
      && |r.outbox| == |db.outbox|
      && (forall i :: 0 <= i < |db.outbox| && i != claim.id ==> r.outbox[i] == db.outbox[i])
      && SettledBy(cfg, db.outbox[claim.id], r.outbox[claim.id], a)
  {
    hide RetryDelay;
  }

  /** Every claim ended as its answer asks, and no other row changed. */
  ghost predicate AllSettled(cfg: Config, before: seq<OutRow>, after: seq<OutRow>, claims: seq<OutClaim>, routes: seq<Routed>, local: set<string>)
    requires |routes| == |claims|
  {
    && |after| == |before|
    && (forall k :: 0 <= k < |before| && (forall i :: 0 <= i < |claims| ==> claims[i].id != k) ==> after[k] == before[k])
    && (forall i :: 0 <= i < |claims| ==>
          claims[i].id < |before| && SettledBy(cfg, before[claims[i].id], after[claims[i].id], AnswerFor(claims[i].envelope, routes[i], local)))
  }

  predicate Separate(claims: seq<OutClaim>) {
    forall i, j :: 0 <= i < j < |claims| ==> claims[i].id != claims[j].id
  }

  /** Settling one more row extends the settled ones. */
  lemma OneMoreSettled(cfg: Config, before: seq<OutRow>, middle: seq<OutRow>, after: seq<OutRow>, claims: seq<OutClaim>, routes: seq<Routed>,
      local: set<string>)
    requires |routes| == |claims| > 0 && Separate(claims)
    requires AllSettled(cfg, before, middle, claims[..|claims| - 1], routes[..|claims| - 1], local)
    requires var last := claims[|claims| - 1];
      && last.id < |before| && |after| == |middle|
      && (forall k :: 0 <= k < |middle| && k != last.id ==> after[k] == middle[k])
      && SettledBy(cfg, middle[last.id], after[last.id], AnswerFor(last.envelope, routes[|claims| - 1], local))
    ensures AllSettled(cfg, before, after, claims, routes, local)
  {
    hide SettledBy, AnswerFor;
    var n := |claims| - 1;
    forall k | 0 <= k < |before| && (forall i :: 0 <= i < |claims| ==> claims[i].id != k) ensures after[k] == before[k] {
      assert claims[n].id != k;
      assert forall i :: 0 <= i < n ==> claims[..n][i].id != k;
    }
    assert middle[claims[n].id] == before[claims[n].id] by {
      assert forall i :: 0 <= i < n ==> claims[..n][i].id != claims[n].id;
    }
    forall i | 0 <= i < |claims|
      ensures claims[i].id < |before|
      ensures SettledBy(cfg, before[claims[i].id], after[claims[i].id], AnswerFor(claims[i].envelope, routes[i], local))
    {
      if i < n {
        assert claims[..n][i] == claims[i] && routes[..n][i] == routes[i];
        assert claims[i].id != claims[n].id;
      }
    }
  }

  /** A flush settles every claimed row by its own answer, touches no other row, and never meets a lease conflict. */
  lemma {:induction false} FlushSettles(cfg: Config, db: Db, claims: seq<OutClaim>, routes: seq<Routed>, local: set<string>, now: int)
    requires |routes| == |claims| && Separate(claims)
    requires forall i :: 0 <= i < |claims| ==> Leased(db, claims[i], now)
    ensures var r := CloseAll(cfg, db, claims, routes, local, now);
      r.failure.None? && AllSettled(cfg, db.outbox, r.db.outbox, claims, routes, local)
  {
    hide AnswerFor, Close, SettledBy, Leased;
    if claims != [] {
      hide AllSettled;
      var n := |claims| - 1;
      FlushSettles(cfg, db, claims[..n], routes[..n], local, now);
      var before := CloseAll(cfg, db, claims[..n], routes[..n], local, now);
      StillLeased(cfg, db, before.db, claims, routes, local, now);
      CloseLeased(cfg, before.db, claims[n], AnswerFor(claims[n].envelope, routes[n], local), now);
      LeasedIsRow(db, claims[n], now);
      var last := Close(cfg, before.db, claims[n], AnswerFor(claims[n].envelope, routes[n], local), now);
      OneMoreSettled(cfg, db.outbox, before.db.outbox, last.value.outbox, claims, routes, local);
    }
  }

  /** A claimed row of this number was answered so. */
  ghost predicate Answered(claims: seq<OutClaim>, routes: seq<Routed>, local: set<string>, id: nat, a: Answer)
    requires |routes| == |claims|
  {
    exists i :: 0 <= i < |claims| && claims[i].id == id && AnswerFor(claims[i].envelope, routes[i], local) == a
  }

  /** The three lists name exactly the claimed rows: the accepted ones as sent, the refused ones as dead, the rest as pending. */
  lemma {:induction false} FlushReports(cfg: Config, db: Db, claims: seq<OutClaim>, routes: seq<Routed>, local: set<string>, now: int)
    requires |routes| == |claims| && CloseAll(cfg, db, claims, routes, local, now).failure.None?
    ensures var r := CloseAll(cfg, db, claims, routes, local, now);
      forall id: nat ::
        && (id in r.sent <==> exists receipt :: Answered(claims, routes, local, id, Accepted(receipt)))
        && (id in r.dead <==> Answered(claims, routes, local, id, Refused))
        && (id in r.pending <==> Answered(claims, routes, local, id, Unavailable))
    ensures var r := CloseAll(cfg, db, claims, routes, local, now); |r.sent| + |r.dead| + |r.pending| == |claims|
  {
    hide AnswerFor, Close, Answered;
    if claims == [] {
      NobodyAnswered(routes, local);
    } else {
      var n := |claims| - 1;
      FlushReports(cfg, db, claims[..n], routes[..n], local, now);
      forall id: nat, a: Answer
        ensures Answered(claims, routes, local, id, a) <==>
          Answered(claims[..n], routes[..n], local, id, a) || (claims[n].id == id && AnswerFor(claims[n].envelope, routes[n], local) == a)
      {
        OneMoreAnswer(claims, routes, local, id, a);
      }
    }
  }

  lemma NobodyAnswered(routes: seq<Routed>, local: set<string>)
    requires |routes| == 0
    ensures forall id: nat, a: Answer :: !Answered([], routes, local, id, a)
  {
  }

  lemma OneMoreAnswer(claims: seq<OutClaim>, routes: seq<Routed>, local: set<string>, id: nat, a: Answer)
    requires |routes| == |claims| > 0
    ensures var n := |claims| - 1;
      Answered(claims, routes, local, id, a) <==>
        Answered(claims[..n], routes[..n], local, id, a) || (claims[n].id == id && AnswerFor(claims[n].envelope, routes[n], local) == a)
  {
    hide AnswerFor;
    var n := |claims| - 1;
    if Answered(claims, routes, local, id, a) {
      var i :| 0 <= i < |claims| && claims[i].id == id && AnswerFor(claims[i].envelope, routes[i], local) == a;
      assert i < n ==> claims[..n][i] == claims[i] && routes[..n][i] == routes[i];
    }
    if Answered(claims[..n], routes[..n], local, id, a) {
      var i :| 0 <= i < n && claims[..n][i].id == id && AnswerFor(claims[..n][i].envelope, routes[..n][i], local) == a;
      assert claims[..n][i] == claims[i] && routes[..n][i] == routes[i];
    }
  }

  /** A claimed row is refused unasked exactly for its locality or for want of an endpoint; otherwise the first endpoint to answer decides. */
  lemma AnswerMeans(e: Envelope, routed: Routed, local: set<string>)
    ensures var a := AnswerFor(e, routed, local);
      && (Service.IsLocalhost(e.body.senderId) && (e.body.senderId !in local || e.body.recipients == [] || !(RecipientIds(e.body.recipients) <= local))
          ==> a.Refused?)
      && (routed.NoRoute? || routed.answers == [] ==> a.Refused?)
      && (Service.LocalityOk(e.body.senderId, e.body.recipients, local) && routed.Via? && routed.answers != [] ==>
            if forall i :: 0 <= i < |routed.answers| ==> routed.answers[i].Unavailable? then a.Unavailable?
            else exists i :: FirstAnswer(routed.answers, i) && routed.answers[i] == a)
  {
  }

  lemma LeasedIsRow(db: Db, claim: OutClaim, now: int)
    requires Leased(db, claim, now)
    ensures claim.id < |db.outbox|
  {
  }

  /** The row of the last claim is untouched while the earlier ones are settled. */
  lemma StillLeased(cfg: Config, db: Db, middle: Db, claims: seq<OutClaim>, routes: seq<Routed>, local: set<string>, now: int)
    requires |routes| == |claims| > 0 && Separate(claims)
    requires Leased(db, claims[|claims| - 1], now)
    requires AllSettled(cfg, db.outbox, middle.outbox, claims[..|claims| - 1], routes[..|claims| - 1], local)
    ensures Leased(middle, claims[|claims| - 1], now)
  {
    hide SettledBy, AnswerFor;
    var n := |claims| - 1;
    assert forall i :: 0 <= i < n ==> claims[..n][i].id != claims[n].id;
  }

  /** When sending succeeds, the first endpoint to answer accepted, and the envelope's row is sent with its receipt. */
  lemma SendMeans(cfg: Config, db: Db, e: Envelope, answers: seq<Answer>, local: set<string>, now: int, leases: seq<Uuid>)
    requires Send(cfg, db, e, answers, local, now, leases).result.Ok?
    ensures var sent := Send(cfg, db, e, answers, local, now, leases);
      && (exists i :: FirstAnswer(answers, i) && answers[i] == Accepted(sent.result.value))
      && (exists k :: 0 <= k < |sent.db.outbox| && sent.db.outbox[k].envelope == e && sent.db.outbox[k].state.Sent?
            && sent.db.outbox[k].receipt == Some(sent.result.value))
  {
    hide ClaimOutbox, Service.LocalityOk, Close, StructureError;
    var (staged, row) := Stage(db, e, now).value;
    var (claimed, claims) := ClaimOutbox(cfg, staged, 1, SEND_LEASE_MS, Some(row.id), now, leases).value;
    ClaimsAreLeased(cfg, staged, 1, Some(row.id), now, leases);
    ClaimsOnly(cfg, staged, row.id, now, leases);
    CloseLeased(cfg, claimed, claims[0], Decisive(answers), now);
    StagedHolds(db, e, now);
  }

  /** The claim sending makes for its staged row, where it gets that far. */
  ghost predicate ClaimsStaged(cfg: Config, db: Db, e: Envelope, answers: seq<Answer>, local: set<string>, now: int, leases: seq<Uuid>) {
    && answers != [] && Service.LocalityOk(e.body.senderId, e.body.recipients, local) && Stage(db, e, now).Ok?
    && var (staged, row) := Stage(db, e, now).value;
    && ClaimOutbox(cfg, staged, 1, SEND_LEASE_MS, Some(row.id), now, leases).Ok?
    && ClaimOutbox(cfg, staged, 1, SEND_LEASE_MS, Some(row.id), now, leases).value.1 != []
  }

  /** The envelope's row ended in this state. */
  ghost predicate Ended(db: Db, e: Envelope, state: OutState) {
    exists k :: 0 <= k < |db.outbox| && db.outbox[k].envelope == e && db.outbox[k].state == state
  }

  /**
   * What sending answers: acceptance, refusal or unavailability exactly as the endpoints answer a claimed row, which ends sent,
   * dead, or back in the queue unless its attempts are spent; without endpoints or against locality nothing is even staged.
   */
  lemma SendAnswers(cfg: Config, db: Db, e: Envelope, answers: seq<Answer>, local: set<string>, now: int, leases: seq<Uuid>)
    ensures var s := Send(cfg, db, e, answers, local, now, leases);
      && (s.result == Err(NoEndpoints) <==> answers == [])
      && (s.result == Err(LocalityViolated) <==> answers != [] && !Service.LocalityOk(e.body.senderId, e.body.recipients, local))
      && (s.result == Err(NoEndpoints) || s.result == Err(LocalityViolated) ==> s.db == db)
      && (s.result.Ok? <==> ClaimsStaged(cfg, db, e, answers, local, now, leases) && Decisive(answers).Accepted?)
      && (s.result == Err(EndpointRefused) <==> ClaimsStaged(cfg, db, e, answers, local, now, leases) && Decisive(answers).Refused?)
      && (s.result == Err(AllUnavailable) <==> ClaimsStaged(cfg, db, e, answers, local, now, leases) && Decisive(answers).Unavailable?)
      && (s.result == Err(EndpointRefused) ==> Ended(s.db, e, OutDead))
      && (s.result == Err(AllUnavailable) ==> Ended(s.db, e, Pending) || Ended(s.db, e, OutDead))
  {
    hide ClaimOutbox, Service.LocalityOk, Close, StructureError, Stage, Leased, Decisive;
    if ClaimsStaged(cfg, db, e, answers, local, now, leases) {
      var (staged, row) := Stage(db, e, now).value;
      var (claimed, claims) := ClaimOutbox(cfg, staged, 1, SEND_LEASE_MS, Some(row.id), now, leases).value;
      ClaimsAreLeased(cfg, staged, 1, Some(row.id), now, leases);
      ClaimsOnly(cfg, staged, row.id, now, leases);
      CloseLeased(cfg, claimed, claims[0], Decisive(answers), now);
      LeasedIsRow(claimed, claims[0], now);
      LeasedEnvelope(claimed, claims[0], now);
      StagedHolds(db, e, now);
    }
  }

  lemma LeasedEnvelope(db: Db, claim: OutClaim, now: int)
    requires Leased(db, claim, now)
    ensures claim.id < |db.outbox| && db.outbox[claim.id].envelope == claim.envelope
  {
  }

  lemma ClaimsOnly(cfg: Config, db: Db, id: nat, now: int, leases: seq<Uuid>)
    requires ClaimOutbox(cfg, db, 1, SEND_LEASE_MS, Some(id), now, leases).Ok?
    ensures var claims := ClaimOutbox(cfg, db, 1, SEND_LEASE_MS, Some(id), now, leases).value.1;
      forall i :: 0 <= i < |claims| ==> claims[i].id == id && id < |db.outbox| && claims[i].envelope == db.outbox[id].envelope
  {
    hide ClaimOutRows, OutSelected;
    var expired := ExpireOutbox(cfg, db.outbox, now);
    var rows := OutSelected(cfg, db, 1, Some(id), now);
    assert forall i :: 0 <= i < |rows| ==> OutReady(expired, rows[i], Some(id), now);
    assert forall k :: 0 <= k < |expired| ==> expired[k] == ExpireOutRow(cfg, db.outbox[k], now);
  }

  lemma StagedHolds(db: Db, e: Envelope, now: int)
    requires Stage(db, e, now).Ok?
    ensures var (staged, row) := Stage(db, e, now).value; row.id < |staged.outbox| && staged.outbox[row.id].envelope == e
  {
    hide StructureError;
  }
}
