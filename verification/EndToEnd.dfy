/** What holds over every run of the network, from the sender's outbox to the receiver's application. */
module EndToEnd {
  import opened Directory
  import opened Protocol
  import opened Broker
  import opened OutboxMeasure
  import opened Inbox
  import opened Network

  lemma {:induction false} RunKeeps(cfg: Config, me: string, d: Discipline, world: World, events: seq<Event>)
    requires cfg.maxAttempts >= 1 && Start(world) && Runs(cfg, me, d, world, events)
    ensures Inv(cfg, me, d, Run(cfg, me, world, events))
  {
    if events != [] {
      hide Inv, Next, Enabled, Start;
      RunKeeps(cfg, me, d, world, events[..|events| - 1]);
      NextKeeps(cfg, me, d, Run(cfg, me, world, events[..|events| - 1]), events[|events| - 1]);
    }
  }

  /**
   * Where no finish of a processed row fails to open it again, a delivery to the receiver is acknowledged on any broker
   * only if the inbox has processed that very envelope.
   */
  lemma AcknowledgedIsProcessed(cfg: Config, me: string, world: World, events: seq<Event>, b: nat, s: nat)
    requires cfg.maxAttempts >= 1 && Start(world) && Runs(cfg, me, Reopening, world, events)
    requires b in Run(cfg, me, world, events).brokers && DeliveredTo(me, Run(cfg, me, world, events).brokers[b], s)
    ensures var after := Run(cfg, me, world, events); var db := after.brokers[b]; var key := db.deliveries[s].message;
      && key in db.messages && KeyOf(db.messages[key].envelope) == key
      && DoneWith(after.rows, key, Sha256(db.messages[key].envelope))
  {
    hide Run, Runs, DoneWith, WorkersOk, YieldsOk, SentAnswered, OutboxOk, BrokerRuns.HasDelivery, Start;
    RunKeeps(cfg, me, Reopening, world, events);
    assert DeliveredBacked(me, Run(cfg, me, world, events).brokers[b], Run(cfg, me, world, events).rows);
  }

  /** Over all routes, retries and crashes, each message is yielded to the application at most once, where finishing spares processed rows. */
  lemma YieldedOnce(cfg: Config, me: string, world: World, events: seq<Event>, i: nat, j: nat)
    requires cfg.maxAttempts >= 1 && Start(world) && Runs(cfg, me, Sparing, world, events)
    requires i < j < |Run(cfg, me, world, events).yielded|
    ensures Run(cfg, me, world, events).yielded[i] != Run(cfg, me, world, events).yielded[j]
  {
    hide Run, Runs, Sound, Backed, Start;
    RunKeeps(cfg, me, Sparing, world, events);
  }

  /** An outbox row is sent only with a receipt that some broker gave for the row's own envelope. */
  lemma SentIsAnswered(cfg: Config, me: string, world: World, events: seq<Event>, i: nat)
    requires cfg.maxAttempts >= 1 && Start(world) && Runs(cfg, me, AnyFinish, world, events)
    requires i < |Run(cfg, me, world, events).outbox.outbox| && Run(cfg, me, world, events).outbox.outbox[i].state.Sent?
    ensures var after := Run(cfg, me, world, events);
      && after.outbox.outbox[i].receipt.Some?
      && HasAnswer(after.answers, after.outbox.outbox[i].envelope, after.outbox.outbox[i].receipt.value)
  {
    hide Run, Runs, BrokersGood, WorkersOk, OutboxOk, HasAnswer, Start;
    RunKeeps(cfg, me, AnyFinish, world, events);
  }

  /** The broker's commit behind an answer: the transaction of this run after which it held exactly this envelope. */
  ghost predicate Committed(cfg: Config, me: string, world: World, events: seq<Event>, n: nat, b: nat, e: Envelope) {
    && n < |events|
    && events[n].AtBroker? && events[n].broker == b
    && b in Run(cfg, me, world, events[..n + 1]).brokers
    && KeyOf(e) in Run(cfg, me, world, events[..n + 1]).brokers[b].messages
    && Run(cfg, me, world, events[..n + 1]).brokers[b].messages[KeyOf(e)].envelope == e
  }

  lemma {:induction false} AnswerIsCommitted(cfg: Config, me: string, world: World, events: seq<Event>, b: nat, e: Envelope, r: Receipt)
    requires Start(world) && (b, e, r) in Run(cfg, me, world, events).answers
    ensures exists n :: Committed(cfg, me, world, events, n, b, e)
  {
    if events != [] {
      var n := |events| - 1;
      var before, event := Run(cfg, me, world, events[..n]), events[n];
      assert events[..n + 1] == events;
      if (b, e, r) in before.answers {
        AnswerIsCommitted(cfg, me, world, events[..n], b, e, r);
        hide Run;
        var m :| Committed(cfg, me, world, events[..n], m, b, e);
        assert events[..n][..m + 1] == events[..m + 1];
        assert Committed(cfg, me, world, events, m, b, e);
      } else {
        AnswerCommits(cfg, me, before, event, b, e, r);
        assert Committed(cfg, me, world, events, n, b, e);
      }
    }
  }

  lemma AnswerCommits(cfg: Config, me: string, world: World, event: Event, b: nat, e: Envelope, r: Receipt)
    requires (b, e, r) !in world.answers && (b, e, r) in Next(cfg, me, world, event).answers
    ensures event.AtBroker? && event.broker == b && b in world.brokers
    ensures var after := Next(cfg, me, world, event);
      b in after.brokers && KeyOf(e) in after.brokers[b].messages && after.brokers[b].messages[KeyOf(e)].envelope == e
  {
    hide BrokerError, ClaimsFor, Opened, ClaimFieldsOk;
  }

  /** An outbox row is sent only if some broker has committed its message. */
  lemma SentIsCommitted(cfg: Config, me: string, world: World, events: seq<Event>, i: nat)
    requires cfg.maxAttempts >= 1 && Start(world) && Runs(cfg, me, AnyFinish, world, events)
    requires i < |Run(cfg, me, world, events).outbox.outbox| && Run(cfg, me, world, events).outbox.outbox[i].state.Sent?
    ensures exists n, b :: Committed(cfg, me, world, events, n, b, Run(cfg, me, world, events).outbox.outbox[i].envelope)
  {
    hide Run, Runs, Committed, Start;
    SentIsAnswered(cfg, me, world, events, i);
    var after := Run(cfg, me, world, events);
    var row := after.outbox.outbox[i];
    var b :| (b, row.envelope, row.receipt.value) in after.answers;
    AnswerIsCommitted(cfg, me, world, events, b, row.envelope, row.receipt.value);
  }
}
