/** The retention bounds of admission are exact: one millisecond less, and a run admits a message twice. */
module RetentionExact {
  import opened Wrappers
  import opened Text
  import opened Directory
  import opened Protocol
  import opened Broker
  import opened BrokerRuns
  import opened Admission
  import opened DirectoryContext
  import opened Sample

  const CFG := Config(5, 1000, 3_600_000)

  /** The receiver's report of success under the first lease, signed with its directory key. */
  function AckOf(e: Envelope): Ack {
    var body := AckBody("tribe-ack/v1", "b", MESSAGE_ID, FIRST_LEASE, T0, Sha256(e), Processed, "bs");
    Ack(body, "Ed25519", "bs", Ed25519(Filled(32, 3), body, 0))
  }

  const ACK_KEYS := KeyTable(Sealed(0).agents, Signing)

  // ---- the run: admit, claim, acknowledge, purge, admit again ----

  function RunOps(first: Envelope, second: Envelope, later: int): seq<Op> {
    [EnqueueOp(first, SendContext(0, T0), T0), ClaimOp("b", 1, 60_000, [FIRST_LEASE], T0), AckOp(AckOf(first), ACK_KEYS, T0),
     MaintainOp(Some(T0 + 1), later), EnqueueOp(second, SendContext(0, later), later)]
  }

  function OneDelivery(e: Envelope, d: Delivery): Db {
    EMPTY.(highWater := Some(T0), messages := map[KEY := Message(e, T0)], deliveries := map[1 := d], nextSeq := 2)
  }

  lemma Admitted(e: Envelope)
    requires Admits(e, SendContext(0, T0)) && KeyOf(e) == KEY
    requires e.body.recipients == [WRAP]
    ensures AdmitsNew(EMPTY, EnqueueOp(e, SendContext(0, T0), T0), KEY)
    ensures Step(CFG, EMPTY, EnqueueOp(e, SendContext(0, T0), T0)) == OneDelivery(e, NewDelivery(e, e.body.recipients[0], T0))
  {
    hide BrokerError;
    assert EMPTY.deliveries + NewDeliveries(1, e, e.body.recipients, T0) == map[1 := NewDelivery(e, e.body.recipients[0], T0)];
  }

  function Leased(e: Envelope): Delivery
    requires e.body.recipients != []
  {
    ClaimRow(NewDelivery(e, e.body.recipients[0], T0), Lease(FIRST_LEASE, T0 + 60_000), T0)
  }

  lemma OnlyRowSelected(e: Envelope)
    requires T0 < e.body.expires && KeyOf(e) == KEY && e.body.recipients == [WRAP]
    ensures var db := OneDelivery(e, NewDelivery(e, e.body.recipients[0], T0));
      Expire(CFG, db, T0) == db && Selected(CFG, db, "b", 1, T0) == [1]
  {
    var d := NewDelivery(e, e.body.recipients[0], T0);
    var db := OneDelivery(e, d);
    assert ExpireRow(CFG, db.messages, d, T0) == d;
    hide ExpireRow, ReadyBelow;
    assert Expire(CFG, db, T0).deliveries == db.deliveries;
    assert Ready(db, 1, "b", T0) && !Ready(db, 0, "b", T0);
    TwoReady(db, "b", T0);
  }

  lemma TwoReady(db: Db, recipient: string, now: int)
    requires Ready(db, 1, recipient, now) && !Ready(db, 0, recipient, now)
    ensures ReadyBelow(db, recipient, now, 2) == [1]
  {
    hide Ready;
    assert ReadyBelow(db, recipient, now, 0) == [];
    assert ReadyBelow(db, recipient, now, 1) == [];
  }

  lemma OneRowLeased(deliveries: map<nat, Delivery>, s: nat, lease: Uuid, until: int, now: int)
    requires s in deliveries
    ensures ClaimRows(deliveries, [s], [lease], until, now) == deliveries[s := ClaimRow(deliveries[s], Lease(lease, until), now)]
  {
    var rows: seq<nat> := [s];
    assert rows[..0] == [];
    assert ClaimRows(deliveries, rows[..0], [lease], until, now) == deliveries;
  }

  lemma ClaimsOnlyRow(db: Db, s: nat)
    requires Expire(CFG, db, T0) == db && Selected(CFG, db, "b", 1, T0) == [s]
    requires s in db.deliveries && db.deliveries[s].message in db.messages
    ensures Step(CFG, db, ClaimOp("b", 1, 60_000, [FIRST_LEASE], T0))
      == db.(deliveries := db.deliveries[s := ClaimRow(db.deliveries[s], Lease(FIRST_LEASE, T0 + 60_000), T0)])
  {
    hide IsIdentifier, ReadyBelow, Ready, Selected, ClaimRows, Expire, ClaimsOf, ClaimRow;
    IdsAreWellFormed();
    NamesAreFine();
    OneRowLeased(db.deliveries, s, FIRST_LEASE, T0 + 60_000, T0);
  }

  lemma ClaimedNext(e: Envelope)
    requires T0 < e.body.expires && KeyOf(e) == KEY && e.body.recipients == [WRAP]
    ensures Step(CFG, OneDelivery(e, NewDelivery(e, e.body.recipients[0], T0)), ClaimOp("b", 1, 60_000, [FIRST_LEASE], T0))
         == OneDelivery(e, Leased(e))
  {
    hide Step, Selected, Expire;
    OnlyRowSelected(e);
    var db := OneDelivery(e, NewDelivery(e, e.body.recipients[0], T0));
    ClaimsOnlyRow(db, 1);
    assert db.deliveries[1 := Leased(e)] == map[1 := Leased(e)];
  }

  lemma AckIsGenuine(e: Envelope)
    ensures AckError(AckOf(e), ACK_KEYS, T0).None?
  {
    IdsAreWellFormed();
    NamesAreFine();
    KeysAreFiled(0);
    hide IsIdentifier, KeyTable;
  }

  lemma AckFindsRow(e: Envelope)
    requires KeyOf(e) == KEY && e.body.recipients == [WRAP]
    ensures FindLeased(OneDelivery(e, Leased(e)), AckOf(e).body, 2) == Some(1)
  {
    var db, b := OneDelivery(e, Leased(e)), AckOf(e).body;
    assert Matches(db, 1, b) && !Matches(db, 0, b);
    hide Matches;
    assert FindLeased(db, b, 0) == None;
    assert FindLeased(db, b, 1) == None;
  }

  lemma AcknowledgedNext(e: Envelope)
    requires KeyOf(e) == KEY && e.body.recipients == [WRAP]
    ensures var after := Step(CFG, OneDelivery(e, Leased(e)), AckOp(AckOf(e), ACK_KEYS, T0));
      && after.highWater == Some(T0) && after.messages == map[KEY := Message(e, T0)]
      && after.deliveries.Keys == {1} && after.deliveries[1].Terminal() && after.deliveries[1].updatedAt == T0
      && after.deliveries[1].message == KEY
  {
    hide AckError, FindLeased;
    AckIsGenuine(e);
    AckFindsRow(e);
  }

  lemma PurgedNext(db: Db, later: int)
    requires db.highWater == Some(T0) && T0 <= later && KEY in db.messages
    requires forall s :: s in db.deliveries && db.deliveries[s].message == KEY ==>
      db.deliveries[s].Terminal() && db.deliveries[s].updatedAt == T0
    ensures var after := Step(CFG, db, MaintainOp(Some(T0 + 1), later)); KEY !in after.messages && after.highWater == Some(T0)
  {
    var expired := Expire(CFG, db, later);
    forall s | s in expired.deliveries && expired.deliveries[s].message == KEY
      ensures expired.deliveries[s].Terminal() && expired.deliveries[s].updatedAt < T0 + 1
    {
      assert expired.deliveries[s] == ExpireRow(CFG, db.messages, db.deliveries[s], later);
    }
    assert Purgeable(expired, KEY, T0 + 1);
  }

  /** Two envelopes with one message ID, each acceptable at its time, are both admitted as new. */
  lemma AdmittedTwice(first: Envelope, second: Envelope, later: int)
    requires KeyOf(first) == KEY && KeyOf(second) == KEY
    requires first.body.recipients == [WRAP] && T0 < first.body.expires
    requires Admits(first, SendContext(0, T0)) && Admits(second, SendContext(0, later))
    requires T0 <= later <= MAX_INTEGER
    ensures var ops := RunOps(first, second, later);
      && TimesRise(ops) && PurgesKeep(ops, later - T0 - 1)
      && AdmitsNew(Run(CFG, ops[..0]), ops[0], KEY) && AdmitsNew(Run(CFG, ops[..4]), ops[4], KEY)
  {
    hide Step, Admits, AckOf, SendContext, TimesRise, PurgesKeep, AdmitsNew, NewDelivery, OneDelivery, Leased;
    var ops := RunOps(first, second, later);
    RunOpsTimes(first, second, later);
    Admitted(first);
    ClaimedNext(first);
    AcknowledgedNext(first);
    RunNext(CFG, ops, 0);
    RunNext(CFG, ops, 1);
    RunNext(CFG, ops, 2);
    RunNext(CFG, ops, 3);
    assert ops[..0] == [];
    PurgedNext(Run(CFG, ops[..3]), later);
    AdmittedAgain(Run(CFG, ops[..4]), second, later);
  }

  lemma RunOpsTimes(first: Envelope, second: Envelope, later: int)
    requires T0 <= later
    ensures TimesRise(RunOps(first, second, later)) && PurgesKeep(RunOps(first, second, later), later - T0 - 1)
  {
  }

  lemma AdmittedAgain(db: Db, e: Envelope, later: int)
    requires KeyOf(e) == KEY && KEY !in db.messages && db.highWater == Some(T0) && T0 <= later <= MAX_INTEGER
    requires Admits(e, SendContext(0, later))
    ensures AdmitsNew(db, EnqueueOp(e, SendContext(0, later), later), KEY)
  {
    hide BrokerError;
  }

  // ---- the bounds ----

  /** Whatever clocks that only rise and whatever purges that keep this much, no message is admitted as new twice. */
  ghost predicate NeverTwice(retention: int) {
    forall cfg: Config, ops: seq<Op>, i: nat, j: nat, k: MessageKey ::
      cfg.maxAttempts >= 1 && i < j < |ops| && TimesRise(ops) && PurgesKeep(ops, retention)
      && AdmitsNew(Run(cfg, ops[..i]), ops[i], k)
      ==> !AdmitsNew(Run(cfg, ops[..j]), ops[j], k)
  }

  /** The same for one and the same envelope. */
  ghost predicate NeverTwiceSameBytes(retention: int) {
    forall cfg: Config, ops: seq<Op>, i: nat, j: nat, k: MessageKey ::
      cfg.maxAttempts >= 1 && i < j < |ops| && TimesRise(ops) && PurgesKeep(ops, retention)
      && AdmitsNew(Run(cfg, ops[..i]), ops[i], k) && ops[j].EnqueueOp? && ops[j].envelope == ops[i].envelope
      ==> !AdmitsNew(Run(cfg, ops[..j]), ops[j], k)
  }

  lemma LessRetentionKeepsLess(ops: seq<Op>, more: int, less: int)
    requires PurgesKeep(ops, more) && less <= more
    ensures PurgesKeep(ops, less)
  {
  }

  /** Forty-eight hours and fifteen minutes less one millisecond is the exact bound. */
  lemma RetentionIsExact(retention: int)
    ensures NeverTwice(retention) <==> retention >= SAFE_RETENTION_MS - 1
  {
    hide Run, AdmitsNew, TimesRise, PurgesKeep;
    if retention >= SAFE_RETENTION_MS - 1 {
      forall cfg: Config, ops: seq<Op>, i: nat, j: nat, k: MessageKey |
        cfg.maxAttempts >= 1 && i < j < |ops| && TimesRise(ops) && PurgesKeep(ops, retention)
        && AdmitsNew(Run(cfg, ops[..i]), ops[i], k)
        ensures !AdmitsNew(Run(cfg, ops[..j]), ops[j], k)
      {
        AdmittedOnce(cfg, ops, i, j, k, retention);
      }
    } else {
      var first, second := EnvelopeAt(T0 + 300_000, T0 + 400_000), EnvelopeAt(T0 + 900_000, T0 + 900_000 + MAX_TTL_MS);
      var later := T0 + 900_000 + MAX_TTL_MS - 1;
      IsAdmitted(0, T0 + 300_000, T0 + 400_000, T0);
      IsAdmitted(0, T0 + 900_000, T0 + 900_000 + MAX_TTL_MS, later);
      AdmittedTwice(first, second, later);
      LessRetentionKeepsLess(RunOps(first, second, later), later - T0 - 1, retention);
      TwiceRefutes(RunOps(first, second, later), retention);
    }
  }

  lemma TwiceRefutes(ops: seq<Op>, retention: int)
    requires |ops| == 5 && TimesRise(ops) && PurgesKeep(ops, retention)
    requires AdmitsNew(Run(CFG, ops[..0]), ops[0], KEY) && AdmitsNew(Run(CFG, ops[..4]), ops[4], KEY)
    ensures !NeverTwice(retention)
    ensures ops[0].EnqueueOp? && ops[4].EnqueueOp? && ops[4].envelope == ops[0].envelope ==> !NeverTwiceSameBytes(retention)
  {
    hide Run, TimesRise, PurgesKeep;
  }

  lemma KeptSameBytes(retention: int)
    requires retention >= SAME_BYTES_RETENTION_MS - 1
    ensures NeverTwiceSameBytes(retention)
  {
    hide Run, TimesRise, PurgesKeep, Admits, BrokerError;
    forall cfg: Config, ops: seq<Op>, i: nat, j: nat, k: MessageKey |
      cfg.maxAttempts >= 1 && i < j < |ops| && TimesRise(ops) && PurgesKeep(ops, retention)
      && AdmitsNew(Run(cfg, ops[..i]), ops[i], k) && ops[j].EnqueueOp? && ops[j].envelope == ops[i].envelope
      ensures !AdmitsNew(Run(cfg, ops[..j]), ops[j], k)
    {
      SameBytesAdmittedOnce(cfg, ops, i, j, retention);
    }
  }

  /** For identical bytes the exact bound is forty-eight hours and five minutes less one millisecond. */
  lemma SameBytesRetentionIsExact(retention: int)
    ensures NeverTwiceSameBytes(retention) <==> retention >= SAME_BYTES_RETENTION_MS - 1
  {
    hide Run, TimesRise, PurgesKeep, AdmitsNew, Admits, NeverTwiceSameBytes;
    if retention >= SAME_BYTES_RETENTION_MS - 1 {
      KeptSameBytes(retention);
    } else {
      var e := EnvelopeAt(T0 + 300_000, T0 + 300_000 + MAX_TTL_MS);
      var later := T0 + 300_000 + MAX_TTL_MS - 1;
      IsAdmitted(0, T0 + 300_000, T0 + 300_000 + MAX_TTL_MS, T0);
      IsAdmitted(0, T0 + 300_000, T0 + 300_000 + MAX_TTL_MS, later);
      AdmittedTwice(e, e, later);
      LessRetentionKeepsLess(RunOps(e, e, later), later - T0 - 1, retention);
      TwiceRefutes(RunOps(e, e, later), retention);
    }
  }

  /** The directory the refuting runs take their contexts and keys from is runtime authority at all their times. */
  lemma RunsAreServed(first: Envelope, second: Envelope, later: int, i: nat)
    requires i < 5 && T0 <= later < T0 + 40 * DAY
    ensures var op := RunOps(first, second, later)[i];
      && ValidDirectory(Sealed(0), ROOTS, op.now)
      && (op.EnqueueOp? ==> op.context == ContextOf(Sealed(0), Some("a"), None, op.now, {}))
      && (op.AckOp? ==> op.keys == KeyTable(Sealed(0).agents, Signing))
  {
    hide ValidDirectory, KeyTable, AckOf;
    SealedIsValid(0, T0);
    SealedIsValid(0, later);
  }
}
