/** A concrete run in which a late worker that cannot store leaves an acknowledged delivery over a failed row. */
module LostSuccess {
  import opened Wrappers
  import opened Text
  import opened Directory
  import opened DirectoryContext
  import opened Protocol
  import opened Broker
  import opened BrokerRuns
  import opened Inbox
  import opened Network
  import opened Sample
  import opened RetentionExact
  import opened LateWorker

  /** The second worker's report of success, signed with the receiver's directory key. */
  const SUCCESS := AckFor(READER, SECOND_CLAIM, Processed, TAKEOVER)
  const REPORT := Ack(SUCCESS, "Ed25519", "bs", Ed25519(Filled(32, 3), SUCCESS, 0))

  const ACCEPT := AtBroker(0, AckOp(REPORT, ACK_KEYS, TAKEOVER))
  const FAIL := FinishClaim(1, READER, false, TAKEOVER)

  /** The first six events of the late worker's run; the broker accepts the report; the first worker fails to store. */
  const STORY := HISTORY[..6] + [ACCEPT, FAIL]

  // ---- the broker accepts the report ----

  lemma LeasedAgain()
    ensures var db := LEASED_AGAIN;
      && db.nextSeq == 2 && db.messages == map[KEY := Message(LETTER, T0)] && db.acks == map[] && db.deliveries.Keys == {1}
      && db.deliveries[1].recipient == "b" && db.deliveries[1].message == KEY && db.deliveries[1].state.Claimed?
      && db.deliveries[1].lease == Some(Lease(SECOND_LEASE, TAKEOVER + 60_000))
  {
    LetterIsFine();
    LapsedRow();
    LapsedDelivery();
    LeasedShape(OneDelivery(LETTER, Leased(LETTER)), LETTER, Leased(LETTER));
  }

  lemma LeasedShape(db: Db, e: Envelope, d: Delivery)
    requires db == OneDelivery(e, d) && Selected(CFG, db, "b", 1, TAKEOVER) == [1]
    requires ExpireRow(CFG, db.messages, d, TAKEOVER).message == KEY && ExpireRow(CFG, db.messages, d, TAKEOVER).recipient == "b"
    ensures var again := Step(CFG, db, SECOND);
      && again.nextSeq == 2 && again.messages == map[KEY := Message(e, T0)] && again.acks == map[] && again.deliveries.Keys == {1}
      && again.deliveries[1].recipient == "b" && again.deliveries[1].message == KEY && again.deliveries[1].state.Claimed?
      && again.deliveries[1].lease == Some(Lease(SECOND_LEASE, TAKEOVER + 60_000))
  {
    hide Step, Selected, Expire, ExpireRow;
    ExpiredRows(db);
    ClaimsAgain(db);
  }

  lemma ExpiredRows(db: Db)
    ensures Expire(CFG, db, TAKEOVER) == db.(deliveries := Expire(CFG, db, TAKEOVER).deliveries)
    ensures Expire(CFG, db, TAKEOVER).deliveries.Keys == db.deliveries.Keys
    ensures forall s :: s in db.deliveries ==>
      Expire(CFG, db, TAKEOVER).deliveries[s] == ExpireRow(CFG, db.messages, db.deliveries[s], TAKEOVER)
  {
    hide ExpireRow;
  }

  /** The second claim leases the only row, once expired. */
  lemma ClaimsAgain(db: Db)
    requires Selected(CFG, db, "b", 1, TAKEOVER) == [1] && 1 in Expire(CFG, db, TAKEOVER).deliveries
    requires Expire(CFG, db, TAKEOVER).deliveries[1].message in Expire(CFG, db, TAKEOVER).messages
    ensures var expired := Expire(CFG, db, TAKEOVER);
      Step(CFG, db, SECOND) == expired.(deliveries :=
        expired.deliveries[1 := ClaimRow(expired.deliveries[1], Lease(SECOND_LEASE, TAKEOVER + 60_000), TAKEOVER)])
  {
    hide IsIdentifier, Selected, ClaimRows, Expire, ClaimsOf, ClaimRow;
    IdsAreWellFormed();
    NamesAreFine();
    OneRowLeased(Expire(CFG, db, TAKEOVER).deliveries, 1, SECOND_LEASE, TAKEOVER + 60_000, TAKEOVER);
  }

  lemma ReportIsGenuine()
    ensures AckError(REPORT, ACK_KEYS, TAKEOVER).None?
  {
    IdsAreWellFormed();
    NamesAreFine();
    KeysAreFiled(0);
    hide IsIdentifier, KeyTable, LETTER;
  }

  lemma ReportFindsRow()
    ensures FindLeased(LEASED_AGAIN, SUCCESS, 2) == Some(1)
  {
    LeasedAgain();
    hide LEASED_AGAIN, LETTER;
    var db := LEASED_AGAIN;
    assert Matches(db, 1, SUCCESS) && !Matches(db, 0, SUCCESS);
    hide Matches;
    assert FindLeased(db, SUCCESS, 0) == None;
    assert FindLeased(db, SUCCESS, 1) == None;
  }

  lemma ReportAccepted()
    ensures var after := Step(CFG, LEASED_AGAIN, AckOp(REPORT, ACK_KEYS, TAKEOVER));
      DeliveredTo("b", after, 1) && after.deliveries[1].message == KEY
  {
    LeasedAgain();
    ReportIsGenuine();
    ReportFindsRow();
    hide LEASED_AGAIN, AckError, FindLeased, LETTER;
  }

  // ---- the run ----

  lemma StoryNext(n: nat)
    requires n < |STORY|
    ensures var before := Network.Run(CFG, "b", BEGINNING, STORY[..n]);
      && Network.Run(CFG, "b", BEGINNING, STORY[..n + 1]) == Next(CFG, "b", before, STORY[n])
      && forall d: Discipline ::
           Runs(CFG, "b", d, BEGINNING, STORY[..n + 1]) <==> Runs(CFG, "b", d, BEGINNING, STORY[..n]) && Enabled("b", d, before, STORY[n])
  {
    hide Next, Enabled, STORY;
    assert STORY[..n + 1][..n] == STORY[..n];
  }

  lemma StoryShape()
    ensures |STORY| == 8 && STORY[..6] == HISTORY[..6] && STORY[6] == ACCEPT && STORY[7] == FAIL && STORY[..8] == STORY
  {
    hide ACCEPT, FAIL, HISTORY;
    LastEvents();
  }

  /** The late worker's failing finish turns the processed row into a failed one. */
  lemma FailsRow(world: World)
    requires world.workers == map[1 := Worker(FIRST_CLAIM)] && KEY in world.rows && world.rows[KEY].state.Done?
    ensures var after := Next(CFG, "b", world, FAIL);
      && KEY in after.rows && after.rows[KEY].state.Failed? && after.brokers == world.brokers
    ensures Enabled("b", AnyFinish, world, FAIL) && !Enabled("b", Reopening, world, FAIL)
  {
    hide LETTER, AckFor;
  }

  /**
   * Seven events that spare processed rows, then a finish of one that does not open it again: the broker holds an
   * acknowledged delivery whose inbox row is failed.
   */
  lemma AcknowledgedButFailed()
    ensures Start(BEGINNING) && Runs(CFG, "b", AnyFinish, BEGINNING, STORY)
    ensures Runs(CFG, "b", Sparing, BEGINNING, STORY[..7]) && !Runs(CFG, "b", Reopening, BEGINNING, STORY)
    ensures var after := Network.Run(CFG, "b", BEGINNING, STORY);
      && 0 in after.brokers && DeliveredTo("b", after.brokers[0], 1) && after.brokers[0].deliveries[1].message == KEY
      && KEY in after.rows && after.rows[KEY].state.Failed?
  {
    StoryShape();
    TakenOverAndFinished();
    ReportAccepted();
    hide STORY, HISTORY, Start, Network.Run, Runs, Step, ClaimsFor, AnswersOf, LETTER, READER, LEASED_AGAIN, DeliveredTo, REPORT, FAIL;
    StoryNext(6);
    StoryNext(7);
    var before := Network.Run(CFG, "b", BEGINNING, STORY[..6]);
    AcceptsReport(before);
    FailsRow(Next(CFG, "b", before, ACCEPT));
    SparingReopens(CFG, "b", BEGINNING, STORY[..7]);
  }

  lemma AcceptsReport(world: World)
    requires world.brokers == map[0 := LEASED_AGAIN] && SUCCESS in world.made
    ensures var after := Next(CFG, "b", world, ACCEPT);
      && after.brokers == map[0 := Step(CFG, LEASED_AGAIN, AckOp(REPORT, ACK_KEYS, TAKEOVER))]
      && after.rows == world.rows && after.workers == world.workers
    ensures Enabled("b", Sparing, world, ACCEPT)
  {
    hide Step, ClaimsFor, AnswersOf, LEASED_AGAIN, SUCCESS, ACK_KEYS;
  }
}
