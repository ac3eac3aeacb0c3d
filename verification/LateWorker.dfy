/** A concrete run in which a worker resumes after its takeover and the application gets one message twice. */
module LateWorker {
  import opened Wrappers
  import opened Text
  import opened Directory
  import opened Protocol
  import opened DirectoryContext
  import opened Broker
  import opened BrokerRuns
  import opened Inbox
  import opened Network
  import opened Sample
  import opened RetentionExact

  const TAKEOVER := T0 + PROCESSING_TIMEOUT_MS

  /** An envelope that lives for a day. */
  const LETTER := EnvelopeAt(T0 + 300_000, T0 + DAY)

  /** The receiver under the sample directory, with a key that opens the letter. */
  const READER := Inbox.Receiver(Sealed(0), "b", "bs", (e: Envelope) => Some([1]))

  /** One broker, nothing sent yet. */
  const BEGINNING := World(map[0 := EMPTY], EMPTY, map[], map[], map[], {}, {}, {}, [])

  const SEND := EnqueueOp(LETTER, SendContext(0, T0), T0)
  const FIRST := ClaimOp("b", 1, 60_000, [FIRST_LEASE], T0)
  const SECOND := ClaimOp("b", 1, 60_000, [SECOND_LEASE], TAKEOVER)

  const FIRST_CLAIM := Claim(1, KEY, LETTER, Lease(FIRST_LEASE, T0 + 60_000), 1)
  const SECOND_CLAIM := Claim(1, KEY, LETTER, Lease(SECOND_LEASE, TAKEOVER + 60_000), 2)

  /** Sent, claimed and begun; claimed again after the lease, taken over and finished; then the first worker finishes. */
  const HISTORY := [
    AtBroker(0, SEND), AtBroker(0, FIRST), BeginClaim(1, FIRST_CLAIM, READER, T0),
    AtBroker(0, SECOND), BeginClaim(2, SECOND_CLAIM, READER, TAKEOVER), FinishClaim(2, READER, true, TAKEOVER),
    FinishClaim(1, READER, true, TAKEOVER)]

  /** The broker once it has handed the row out again. */
  const LEASED_AGAIN := Step(CFG, OneDelivery(LETTER, Leased(LETTER)), SECOND)

  lemma LetterIsFine()
    ensures LETTER.body.recipients == [WRAP] && KeyOf(LETTER) == KEY && LETTER.body.expires == T0 + DAY
    ensures Admits(LETTER, SendContext(0, T0))
    ensures Decrypt(READER, LETTER, TAKEOVER) == Some([1])
    ensures ClaimFieldsOk(KEY, Sha256(LETTER))
  {
    IsAdmitted(0, T0 + 300_000, T0 + DAY, T0);
    IsReceivedExactly(0, T0 + 300_000, T0 + DAY, TAKEOVER);
    NamesAreFine();
    IdsAreWellFormed();
    hide Admits, Receives, ContextOf, IsIdentifier;
  }

  // ---- the broker ----

  /** A claim that selects one row hands out exactly that row. */
  lemma ClaimYields(db: Db, s: nat, lease: Uuid, now: int)
    requires Selected(CFG, db, "b", 1, now) == [s] && lease.HasVersion(4)
    requires s in Expire(CFG, db, now).deliveries && Expire(CFG, db, now).deliveries[s].message in db.messages
    ensures var op := ClaimOp("b", 1, 60_000, [lease], now);
      ClaimOf(Expire(CFG, db, now), s, Lease(lease, now + 60_000)) in ClaimsFor(CFG, "b", db, op)
  {
    NamesAreFine();
    hide IsIdentifier, Selected, ClaimRows, ExpireRow, ClaimOf;
    var claims := ClaimDeliveries(CFG, db, "b", 1, 60_000, now, [lease]).value.1;
    assert claims[0] == ClaimOf(Expire(CFG, db, now), s, Lease(lease, now + 60_000));
  }

  lemma FirstHandedOut()
    ensures var db := OneDelivery(LETTER, NewDelivery(LETTER, WRAP, T0));
      && Step(CFG, EMPTY, SEND) == db
      && FIRST_CLAIM in ClaimsFor(CFG, "b", db, FIRST)
      && Step(CFG, db, FIRST) == OneDelivery(LETTER, Leased(LETTER))
  {
    LetterIsFine();
    IdsAreWellFormed();
    hide Admits, Step, Selected, Expire, ClaimsFor, Decrypt;
    Admitted(LETTER);
    OnlyRowSelected(LETTER);
    ClaimedNext(LETTER);
    ClaimYields(OneDelivery(LETTER, NewDelivery(LETTER, WRAP, T0)), 1, FIRST_LEASE, T0);
  }

  /** Five minutes later the first lease has lapsed and the row is handed out again. */
  lemma SecondHandedOut()
    ensures SECOND_CLAIM in ClaimsFor(CFG, "b", OneDelivery(LETTER, Leased(LETTER)), SECOND)
  {
    LetterIsFine();
    IdsAreWellFormed();
    var db := OneDelivery(LETTER, Leased(LETTER));
    LapsedRow();
    hide Admits, Decrypt, Selected, ClaimsFor, ExpireRow, LETTER;
    ClaimYields(db, 1, SECOND_LEASE, TAKEOVER);
  }

  lemma LapsedDelivery()
    ensures var d := ExpireRow(CFG, map[KEY := Message(LETTER, T0)], Leased(LETTER), TAKEOVER);
      && Leased(LETTER).message == KEY
      && d.state.Queued? && d.availableAt == TAKEOVER && d.message == KEY && d.recipient == "b" && d.attempts == 1
  {
    LetterIsFine();
    hide Admits, Decrypt, ClaimFieldsOk;
  }

  /** Where the only row is ready once expired, it is selected. */
  lemma OnlyRowReady(db: Db, now: int)
    requires db.nextSeq == 2 && db.deliveries.Keys == {1} && db.deliveries[1].message in db.messages
    requires var d := ExpireRow(CFG, db.messages, db.deliveries[1], now);
      && d.state.Queued? && d.availableAt <= now && d.recipient == "b" && d.message == db.deliveries[1].message
      && now < db.messages[d.message].envelope.body.expires
    ensures Selected(CFG, db, "b", 1, now) == [1]
  {
    hide ExpireRow, ReadyBelow;
    var expired := Expire(CFG, db, now);
    assert Ready(expired, 1, "b", now) && !Ready(expired, 0, "b", now);
    TwoReady(expired, "b", now);
  }

  lemma LapsedRow()
    ensures var db := OneDelivery(LETTER, Leased(LETTER));
      && 1 in Expire(CFG, db, TAKEOVER).deliveries
      && Expire(CFG, db, TAKEOVER).deliveries[1].message == KEY
      && Expire(CFG, db, TAKEOVER).deliveries[1].attempts == 1
      && Selected(CFG, db, "b", 1, TAKEOVER) == [1]
  {
    LetterIsFine();
    LapsedDelivery();
    hide ExpireRow, Selected, Leased, Admits, Decrypt, ClaimFieldsOk;
    OnlyRowReady(OneDelivery(LETTER, Leased(LETTER)), TAKEOVER);
  }

  // ---- the run ----

  /** The world after the first n events. */
  ghost function At(n: nat): World
    requires n <= |HISTORY|
  {
    Network.Run(CFG, "b", BEGINNING, HISTORY[..n])
  }

  lemma AtNext(n: nat)
    requires n < |HISTORY|
    ensures At(n + 1) == Next(CFG, "b", At(n), HISTORY[n])
    ensures Runs(CFG, "b", Sparing, BEGINNING, HISTORY[..n]) && Enabled("b", Sparing, At(n), HISTORY[n]) ==> Runs(CFG, "b", Sparing, BEGINNING, HISTORY[..n + 1])
  {
    hide Next, Enabled;
    assert HISTORY[..n + 1][..n] == HISTORY[..n];
  }

  lemma AtStart()
    ensures At(0) == BEGINNING && Start(BEGINNING) && Runs(CFG, "b", Sparing, BEGINNING, HISTORY[..0])
  {
    assert HISTORY[..0] == [];
  }

  lemma BeginFirst(world: World)
    requires world.rows == map[] && world.workers == map[] && world.yielded == [] && world.owners == map[]
    ensures var next := Next(CFG, "b", world, BeginClaim(1, FIRST_CLAIM, READER, T0));
      && next.rows == map[KEY := Row(Sha256(LETTER), Processing, None, T0)]
      && next.workers == map[1 := Worker(FIRST_CLAIM)] && next.yielded == []
      && next.brokers == world.brokers && next.claims == world.claims
  {
    LetterIsFine();
    hide ClaimFieldsOk, Decrypt, LETTER, READER, Next;
    BeginsNew(CFG, "b", world, 1, FIRST_CLAIM, READER, T0);
  }

  /** The first four events: a worker has begun, and the row has been handed out again. */
  lemma HandedOutTwice()
    ensures Runs(CFG, "b", Sparing, BEGINNING, HISTORY[..4])
    ensures var world := At(4);
      && world.rows == map[KEY := Row(Sha256(LETTER), Processing, None, T0)]
      && world.workers == map[1 := Worker(FIRST_CLAIM)] && world.yielded == [] && SECOND_CLAIM in world.claims
      && world.brokers == map[0 := LEASED_AGAIN]
  {
    hide Network.Run, Runs, Step, ClaimsFor, AfterBegin, SEND, FIRST, SECOND, LETTER, READER, OneDelivery, Leased, AnswersOf, SendContext;
    FirstHandedOut();
    SecondHandedOut();
    OpsAreNoAcks();
    AtStart();
    AtNext(0);
    AtNext(1);
    assert Runs(CFG, "b", Sparing, BEGINNING, HISTORY[..2]);
    AtNext(2);
    assert Enabled("b", Sparing, At(2), HISTORY[2]);
    BeginFirst(At(2));
    AtNext(3);
  }

  lemma OpsAreNoAcks()
    ensures !SEND.AckOp? && !FIRST.AckOp? && !SECOND.AckOp? && READER.agent == "b"
  {
  }

  /** After six events the second worker has taken over and finished; the first one is still there. */
  lemma TakenOverAndFinished()
    ensures Start(BEGINNING) && Runs(CFG, "b", Sparing, BEGINNING, HISTORY[..6])
    ensures var before := At(6);
      && before.yielded == [KEY] && before.workers == map[1 := Worker(FIRST_CLAIM)]
      && KEY in before.rows && before.rows[KEY].state.Done?
      && before.brokers == map[0 := LEASED_AGAIN]
      && AckFor(READER, SECOND_CLAIM, Processed, TAKEOVER) in before.made
  {
    AtStart();
    LastEvents();
    HandedOutTwice();
    hide HISTORY, At, Runs, Step, ClaimsFor, LETTER, READER, SEND, FIRST, SECOND, LEASED_AGAIN, Start, Next, FinishOk;
    AtNext(4);
    AtNext(5);
    TakenOver(At(4));
  }

  lemma LastEvents()
    ensures |HISTORY| == 7 && HISTORY[4] == BeginClaim(2, SECOND_CLAIM, READER, TAKEOVER)
    ensures HISTORY[5] == FinishClaim(2, READER, true, TAKEOVER) && HISTORY[6] == FinishClaim(1, READER, true, TAKEOVER)
    ensures READER.agent == "b"
  {
  }

  lemma TakenOver(world: World)
    requires world.rows == map[KEY := Row(Sha256(LETTER), Processing, None, T0)]
    requires world.workers == map[1 := Worker(FIRST_CLAIM)] && world.yielded == []
    ensures var taken := Next(CFG, "b", world, BeginClaim(2, SECOND_CLAIM, READER, TAKEOVER));
      var done := Next(CFG, "b", taken, FinishClaim(2, READER, true, TAKEOVER));
      && FinishOk(Sparing, taken, 2, READER, true, TAKEOVER) && READER.agent == "b"
      && done.yielded == [KEY] && done.workers == map[1 := Worker(FIRST_CLAIM)]
      && KEY in done.rows && done.rows[KEY].state.Done? && done.brokers == world.brokers
      && AckFor(READER, SECOND_CLAIM, Processed, TAKEOVER) in done.made
  {
    hide Next, LETTER, READER, FinishOk, AckFor;
    TakesOver(world);
    SecondFinishes(Next(CFG, "b", world, BeginClaim(2, SECOND_CLAIM, READER, TAKEOVER)));
  }

  lemma TakesOver(world: World)
    requires world.rows == map[KEY := Row(Sha256(LETTER), Processing, None, T0)]
    requires world.workers == map[1 := Worker(FIRST_CLAIM)]
    ensures var taken := Next(CFG, "b", world, BeginClaim(2, SECOND_CLAIM, READER, TAKEOVER));
      && taken.rows == map[KEY := Row(Sha256(LETTER), Processing, None, TAKEOVER)]
      && taken.workers == map[1 := Worker(FIRST_CLAIM), 2 := Worker(SECOND_CLAIM)]
      && taken.yielded == world.yielded && taken.brokers == world.brokers
      && FinishOk(Sparing, taken, 2, READER, true, TAKEOVER) && READER.agent == "b"
  {
    LetterIsFine();
    hide ClaimFieldsOk, Decrypt, LETTER, Next, FinishOk;
    BeginsNew(CFG, "b", world, 2, SECOND_CLAIM, READER, TAKEOVER);
    SecondMayFinish(Next(CFG, "b", world, BeginClaim(2, SECOND_CLAIM, READER, TAKEOVER)));
  }

  lemma SecondMayFinish(taken: World)
    requires KEY in taken.rows && taken.rows[KEY].state.Processing? && 2 in taken.workers && taken.workers[2].claim.key == KEY
    ensures FinishOk(Sparing, taken, 2, READER, true, TAKEOVER) && READER.agent == "b"
  {
    hide Opened;
  }

  lemma SecondFinishes(taken: World)
    requires taken.rows == map[KEY := Row(Sha256(LETTER), Processing, None, TAKEOVER)]
    requires taken.workers == map[1 := Worker(FIRST_CLAIM), 2 := Worker(SECOND_CLAIM)] && taken.yielded == []
    ensures var done := Next(CFG, "b", taken, FinishClaim(2, READER, true, TAKEOVER));
      && done.yielded == [KEY] && done.workers == map[1 := Worker(FIRST_CLAIM)]
      && KEY in done.rows && done.rows[KEY].state.Done? && done.brokers == taken.brokers
      && AckFor(READER, SECOND_CLAIM, Processed, TAKEOVER) in done.made
  {
    LetterIsFine();
    hide ClaimFieldsOk, Decrypt, LETTER, Next, AckFor;
    FinishesWell(CFG, "b", taken, 2, READER, TAKEOVER);
    assert taken.workers - {2} == map[1 := Worker(FIRST_CLAIM)];
  }

  /**
   * Every event but the last spares processed rows; the last is a finish the source performs all the same,
   * and the message is yielded a second time.
   */
  lemma LateFinishRepeats()
    ensures Start(BEGINNING) && Runs(CFG, "b", Sparing, BEGINNING, HISTORY[..6])
    ensures var before := At(6);
      && before.yielded == [KEY] && 1 in before.workers && !Guarded(before, 1)
      && Next(CFG, "b", before, HISTORY[6]).yielded == [KEY, KEY]
  {
    TakenOverAndFinished();
    LastEvents();
    LetterIsFine();
    hide HISTORY, At, Runs, LETTER, READER, LEASED_AGAIN, Start, Next, Decrypt, ClaimFieldsOk;
    FinishesWell(CFG, "b", At(6), 1, READER, TAKEOVER);
  }
}
