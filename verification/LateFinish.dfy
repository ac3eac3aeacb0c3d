/** Finishing overwrites the row it finds: exactly when that repeats a payload or loses a success, and what prevents it. */
module LateFinish {
  import opened Directory
  import opened Protocol
  import opened Broker
  import opened Inbox
  import opened Sorting
  import opened Network
  import opened EndToEnd

  // ---- exactly when a finish does harm ----

  /** A success for this envelope has been signed. */
  ghost predicate Signed(made: set<AckBody>, digest: Digest<Envelope>) {
    exists a :: a in made && a.outcome.Processed? && a.envelope == digest
  }

  /** Every processed row belongs to its envelope's message, has been yielded, and its success has been signed. */
  ghost predicate Reported(rows: Rows, made: set<AckBody>, yielded: seq<MessageKey>) {
    forall k :: k in rows && rows[k].state.Done? ==>
      k in yielded && Signed(made, rows[k].envelope) && rows[k].envelope.Sha256? && KeyOf(rows[k].envelope.of) == k
  }

  /** No worker's process ended between the commit of a finish and its reports. */
  predicate NoDeaths(events: seq<Event>) {
    forall i :: 0 <= i < |events| ==> !events[i].FinishAndDie?
  }

  lemma ReportedStep(cfg: Config, me: string, world: World, event: Event)
    requires Sound(cfg, world) && Reported(world.rows, world.made, world.yielded) && !event.FinishAndDie?
    ensures var next := Next(cfg, me, world, event); Reported(next.rows, next.made, next.yielded)
  {
    hide Sound, Reported, BrokerRuns.Step, ClaimsFor, AnswersOf, AfterBegin, AfterFinish;
    match event
    case BeginClaim(w, claim, r, now) => BeginReports(world, w, claim, r, now);
    case FinishClaim(w, r, stored, now) =>
      if w in world.workers {
        SoundWorkers(cfg, world);
        FinishReports(world, w, r, stored, now);
      }
    case _ =>
  }

  lemma BeginReports(world: World, w: nat, claim: Claim, r: Receiver, now: int)
    requires Reported(world.rows, world.made, world.yielded)
    ensures var next := AfterBegin(world, w, claim, r, now); Reported(next.rows, next.made, next.yielded)
  {
    var next := AfterBegin(world, w, claim, r, now);
    if BeginResult(world, claim, now).Err? {
      NotBegun(world, w, claim, r, now);
    } else {
      BegunWorld(world, w, claim, r, now);
      hide Reported, AfterBegin, BeginResult;
      forall k | k in next.rows && next.rows[k].state.Done? ensures DoneWith(world.rows, k, next.rows[k].envelope) {
        assert DoneWith(next.rows, k, next.rows[k].envelope);
      }
      ReportsGrow(world.rows, next.rows, world.made, next.made, world.yielded, next.yielded);
    }
  }

  lemma FinishReports(world: World, w: nat, r: Receiver, stored: bool, now: int)
    requires WorkersOk(world.rows, world.workers) && w in world.workers && Reported(world.rows, world.made, world.yielded)
    ensures var next := AfterFinish(world, w, r, stored, now); Reported(next.rows, next.made, next.yielded)
  {
    var next, claim := AfterFinish(world, w, r, stored, now), world.workers[w].claim;
    FinishedRows(world, w, r, stored, false, now);
    var others := world.rows - {claim.key};
    assert Reported(others, world.made, world.yielded);
    hide AfterFinish, AfterDeath, WorkersOk, Opened, Guarded, Reported, Signed;
    ReportsGrow(others, others, world.made, next.made, world.yielded, next.yielded);
    if next.rows[claim.key].state.Done? {
      assert next.yielded[|world.yielded|] == claim.key;
      SignedNow(next.made, AckFor(r, claim, Processed, now));
    }
    ReportedWith(others, next, claim.key);
  }

  lemma SignedNow(made: set<AckBody>, a: AckBody)
    requires a in made && a.outcome.Processed?
    ensures Signed(made, a.envelope)
  {
  }

  lemma ReportedWith(others: Rows, next: World, key: MessageKey)
    requires Reported(others, next.made, next.yielded) && key in next.rows
    requires forall k :: k in next.rows && k != key ==> k in others && others[k] == next.rows[k]
    requires next.rows[key].state.Done? ==> key in next.yielded && Signed(next.made, next.rows[key].envelope)
    requires next.rows[key].envelope.Sha256? && KeyOf(next.rows[key].envelope.of) == key
    ensures Reported(next.rows, next.made, next.yielded)
  {
    hide Signed;
  }

  lemma SoundWorkers(cfg: Config, world: World)
    requires Sound(cfg, world)
    ensures WorkersOk(world.rows, world.workers)
  {
    hide BrokersGood, WorkersOk, OutboxMeasure.OutboxOk, SentAnswered;
  }

  /** New rows and new reports do no harm to the reports of processed rows that stay. */
  lemma ReportsGrow(rows: Rows, after: Rows, made: set<AckBody>, more: set<AckBody>, yielded: seq<MessageKey>, longer: seq<MessageKey>)
    requires Reported(rows, made, yielded) && made <= more && yielded <= longer
    requires forall k :: k in after && after[k].state.Done? ==> k in rows && rows[k].state.Done? && rows[k].envelope == after[k].envelope
    ensures Reported(after, more, longer)
  {
    forall k | k in after && after[k].state.Done? ensures Signed(more, after[k].envelope) && k in longer {
      var a :| a in made && a.outcome.Processed? && a.envelope == rows[k].envelope;
      assert a in more;
      var i :| 0 <= i < |yielded| && yielded[i] == k;
      assert longer[i] == k;
    }
  }

  lemma {:induction false} RunReported(cfg: Config, me: string, world: World, events: seq<Event>)
    requires cfg.maxAttempts >= 1 && Start(world) && Runs(cfg, me, AnyFinish, world, events) && NoDeaths(events)
    ensures var after := Run(cfg, me, world, events); Reported(after.rows, after.made, after.yielded)
  {
    if events != [] {
      var front, last := events[..|events| - 1], events[|events| - 1];
      hide Next, Enabled, Start, Reported, Sound, Backed;
      RunReported(cfg, me, world, front);
      RunKeeps(cfg, me, AnyFinish, world, front);
      ReportedStep(cfg, me, Run(cfg, me, world, front), last);
    }
  }

  /**
   * After any run that spared processed rows, the next finish, sparing or not, repeats a payload if and only if it yields
   * one whose message has been yielded; unless a process ended before its reports, these are the messages of processed
   * rows: the state check that finishing omits is the exact condition.
   */
  lemma RepeatsExactly(cfg: Config, me: string, world: World, events: seq<Event>, w: nat, r: Receiver, stored: bool, now: int)
    requires cfg.maxAttempts >= 1 && Start(world) && Runs(cfg, me, Sparing, world, events)
    requires w in Run(cfg, me, world, events).workers
    ensures var before := Run(cfg, me, world, events);
      var claim := before.workers[w].claim;
      var after := Next(cfg, me, before, FinishClaim(w, r, stored, now));
      && Distinct(before.yielded)
      && claim.key in before.rows
      && (!Distinct(after.yielded) <==> stored && Decrypt(r, claim.envelope, now).Some? && claim.key in before.yielded)
      && (NoDeaths(events) ==> (claim.key in before.yielded <==> before.rows[claim.key].state.Done?))
  {
    hide Run, Runs, BrokersGood, Backed, SentAnswered, OutboxMeasure.OutboxOk, Decrypt, Distinct, Start, NoDeaths, Signed;
    SparingReopens(cfg, me, world, events);
    RunKeeps(cfg, me, Sparing, world, events);
    if NoDeaths(events) {
      RunReported(cfg, me, world, events);
    }
    var before := Run(cfg, me, world, events);
    var claim := before.workers[w].claim;
    assert WorkerOk(before.rows, claim);
    if claim.key !in before.yielded {
      DistinctExtend(before.yielded, claim.key);
    } else {
      NotDistinct(before.yielded, claim.key);
    }
  }

  lemma NotDistinct(keys: seq<MessageKey>, key: MessageKey)
    requires key in keys
    ensures !Distinct(keys + [key])
  {
    var i :| 0 <= i < |keys| && keys[i] == key;
    assert (keys + [key])[i] == (keys + [key])[|keys|];
  }

  /**
   * After any run that opened processed rows again, the next finish keeps every signed success backed if and only if
   * it opens the message where a success has been signed for it; unless a process ended before its reports, these are
   * the processed rows.
   */
  lemma BackedExactly(cfg: Config, me: string, world: World, events: seq<Event>, w: nat, r: Receiver, stored: bool, now: int)
    requires cfg.maxAttempts >= 1 && Start(world) && Runs(cfg, me, Reopening, world, events)
    requires w in Run(cfg, me, world, events).workers
    ensures var before := Run(cfg, me, world, events);
      var claim := before.workers[w].claim;
      var after := Next(cfg, me, before, FinishClaim(w, r, stored, now));
      && MadeBacked(before.rows, before.made)
      && claim.key in before.rows
      && (MadeBacked(after.rows, after.made) <==>
            (Signed(before.made, Sha256(claim.envelope)) ==> stored && Decrypt(r, claim.envelope, now).Some?))
      && (NoDeaths(events) ==> (Signed(before.made, Sha256(claim.envelope)) <==> before.rows[claim.key].state.Done?))
  {
    hide Run, Runs, Sound, AllDelivered, Reported, Start, NoDeaths, AfterFinish, AfterDeath, MadeBacked, Guarded, Signed;
    SparingReopens(cfg, me, world, events);
    RunKeeps(cfg, me, Reopening, world, events);
    var before := Run(cfg, me, world, events);
    var claim := before.workers[w].claim;
    SoundWorkers(cfg, before);
    FinishedRows(before, w, r, stored, false, now);
    if Signed(before.made, Sha256(claim.envelope)) {
      SignedMeans(before.rows, before.made, claim.envelope);
    }
    if NoDeaths(events) {
      RunReported(cfg, me, world, events);
      if before.rows[claim.key].state.Done? {
        ReportedSigns(before.rows, before.made, before.yielded, claim.key);
      }
    }
    FinishBacks(before, w, r, stored, now);
  }

  lemma FinishBacks(world: World, w: nat, r: Receiver, stored: bool, now: int)
    requires WorkersOk(world.rows, world.workers) && w in world.workers && MadeBacked(world.rows, world.made)
    ensures var after := AfterFinish(world, w, r, stored, now); var e := world.workers[w].claim.envelope;
      MadeBacked(after.rows, after.made) <==> (Signed(world.made, Sha256(e)) ==> Opened(world, w, r, stored, now).Some?)
  {
    FinishedRows(world, w, r, stored, false, now);
    hide AfterFinish, AfterDeath, Opened, Guarded, WorkersOk;
    var after, claim := AfterFinish(world, w, r, stored, now), world.workers[w].claim;
    if Opened(world, w, r, stored, now).None? && Signed(world.made, Sha256(claim.envelope)) {
      LosesBacking(world.made, claim.envelope, after);
    } else {
      forall a | a in after.made && a.outcome.Processed?
        ensures a.envelope.Sha256? && DoneWith(after.rows, KeyOf(a.envelope.of), a.envelope)
      {
        if a in world.made {
          assert DoneWith(world.rows, KeyOf(a.envelope.of), a.envelope);
          assert KeyOf(a.envelope.of) == claim.key ==> a.envelope == Sha256(claim.envelope);
        }
      }
    }
  }

  lemma SignedMeans(rows: Rows, made: set<AckBody>, e: Envelope)
    requires MadeBacked(rows, made) && Signed(made, Sha256(e))
    ensures KeyOf(e) in rows && rows[KeyOf(e)].state.Done?
  {
  }

  lemma ReportedSigns(rows: Rows, made: set<AckBody>, yielded: seq<MessageKey>, key: MessageKey)
    requires Reported(rows, made, yielded) && key in rows && rows[key].state.Done?
    ensures Signed(made, rows[key].envelope)
  {
    hide Signed;
  }

  /** A signed success is left without backing once its row is failed. */
  lemma LosesBacking(made: set<AckBody>, e: Envelope, after: World)
    requires Signed(made, Sha256(e)) && made <= after.made
    requires KeyOf(e) in after.rows && after.rows[KeyOf(e)].state.Failed?
    ensures !MadeBacked(after.rows, after.made)
  {
    var a :| a in made && a.outcome.Processed? && a.envelope == Sha256(e);
    assert a in after.made;
  }

  /** Every signed success is backed, now and at every earlier instant of the run. */
  ghost predicate AlwaysBacked(cfg: Config, me: string, world: World, events: seq<Event>) {
    && MadeBacked(Run(cfg, me, world, events).rows, Run(cfg, me, world, events).made)
    && (events != [] ==> AlwaysBacked(cfg, me, world, events[..|events| - 1]))
  }

  /** Of all runs, exactly those in which every finish of a processed row opens it again keep every signed success backed throughout. */
  lemma {:induction false} AlwaysBackedExactly(cfg: Config, me: string, world: World, events: seq<Event>)
    requires cfg.maxAttempts >= 1 && Start(world) && Runs(cfg, me, AnyFinish, world, events) && NoDeaths(events)
    ensures AlwaysBacked(cfg, me, world, events) <==> Runs(cfg, me, Reopening, world, events)
  {
    if Runs(cfg, me, Reopening, world, events) {
      hide Inv, Start, MadeBacked;
      RunKeeps(cfg, me, Reopening, world, events);
      MadeIsBacked(cfg, me, Run(cfg, me, world, events));
    }
    if events != [] {
      var front, last := events[..|events| - 1], events[|events| - 1];
      AlwaysBackedExactly(cfg, me, world, front);
      if Runs(cfg, me, Reopening, world, front) && last.FinishClaim? {
        hide Next, Start, MadeBacked, Opened, Decrypt;
        BackedExactly(cfg, me, world, front, last.worker, last.receiver, last.stored, last.now);
        GuardedMeans(cfg, me, world, front, last.worker, last.receiver, last.stored, last.now);
      }
    }
  }

  lemma MadeIsBacked(cfg: Config, me: string, world: World)
    requires Inv(cfg, me, Reopening, world)
    ensures MadeBacked(world.rows, world.made)
  {
    hide Sound, MadeBacked, AllDelivered;
  }

  lemma GuardedMeans(cfg: Config, me: string, world: World, events: seq<Event>, w: nat, r: Receiver, stored: bool, now: int)
    requires cfg.maxAttempts >= 1 && Start(world) && Runs(cfg, me, AnyFinish, world, events)
    requires w in Run(cfg, me, world, events).workers
    ensures var before := Run(cfg, me, world, events); var claim := before.workers[w].claim;
      && claim.key in before.rows
      && (FinishOk(Reopening, before, w, r, stored, now) <==>
            (before.rows[claim.key].state.Done? ==> stored && Decrypt(r, claim.envelope, now).Some?))
  {
    hide Run, Runs, Sound, Start, Decrypt;
    RunKeeps(cfg, me, AnyFinish, world, events);
    SoundWorkers(cfg, Run(cfg, me, world, events));
    WorkerRow(Run(cfg, me, world, events), w);
  }

  // ---- a sufficient discipline: no worker resumes after its takeover ----

  /** Runs in which only the worker last granted an effect finishes it. */
  ghost predicate TimelyRuns(cfg: Config, me: string, world: World, events: seq<Event>) {
    events == [] ||
    (&& TimelyRuns(cfg, me, world, events[..|events| - 1])
     && var before, event := Run(cfg, me, world, events[..|events| - 1]), events[|events| - 1];
     && Enabled(me, AnyFinish, before, event)
     && (event.FinishClaim? || event.FinishAndDie? ==> Timely(before, event.worker)))
  }

  /** The effect a timely worker owns is still in progress. */
  ghost predicate OwnersBusy(world: World) {
    forall w :: Timely(world, w) ==>
      world.workers[w].claim.key in world.rows && world.rows[world.workers[w].claim.key].state.Processing?
  }

  lemma BusyStep(cfg: Config, me: string, world: World, event: Event)
    requires OwnersBusy(world) && (event.FinishClaim? || event.FinishAndDie? ==> Timely(world, event.worker))
    requires event.BeginClaim? ==> event.worker !in world.workers
    ensures OwnersBusy(Next(cfg, me, world, event))
  {
    hide BeginRow, Opened, BrokerRuns.Step, ClaimsFor, AnswersOf, AckFor, BeginResult;
    match event
    case BeginClaim(w, claim, r, now) => BeginBusy(world, w, claim, r, now);
    case FinishClaim(w, r, stored, now) => FinishBusy(world, AfterFinish(world, w, r, stored, now), w);
    case FinishAndDie(w, r, stored, signed, now) => FinishBusy(world, AfterDeath(world, w, r, stored, signed, now), w);
    case CrashWorker(w) => FinishBusy(world, world.(workers := world.workers - {w}), w);
    case _ => FinishBusy(world, Next(cfg, me, world, event), 0);
  }

  lemma BeginBusy(world: World, w: nat, claim: Claim, r: Receiver, now: int)
    requires OwnersBusy(world) && w !in world.workers
    ensures OwnersBusy(AfterBegin(world, w, claim, r, now))
  {
    hide BeginRow, AckFor;
    var next := AfterBegin(world, w, claim, r, now);
    if BeginResult(world, claim, now).Ok? {
      BegunRows(world.rows, claim.key, Sha256(claim.envelope), now);
      forall v | Timely(next, v)
        ensures next.workers[v].claim.key in next.rows && next.rows[next.workers[v].claim.key].state.Processing?
      {
        if v != w {
          assert Timely(world, v);
        }
      }
    }
  }

  /** Where a worker is gone and no row but its own has changed, the others are as busy as before. */
  lemma FinishBusy(world: World, next: World, w: nat)
    requires OwnersBusy(world) && next.owners == world.owners
    requires next.workers == world.workers || (next.workers == world.workers - {w} && (next.rows == world.rows || Timely(world, w)))
    requires forall k :: k in world.rows ==> k in next.rows
    requires forall k :: k in world.rows && next.rows[k] != world.rows[k] ==>
      next.workers == world.workers - {w} && w in world.workers && k == world.workers[w].claim.key
    ensures OwnersBusy(next)
  {
    forall v | Timely(next, v)
      ensures next.workers[v].claim.key in next.rows && next.rows[next.workers[v].claim.key].state.Processing?
    {
      assert Timely(world, v);
    }
  }

  /** Under that discipline every finish is guarded, so everything proved of guarded runs holds. */
  lemma {:induction false} TimelyIsGuarded(cfg: Config, me: string, world: World, events: seq<Event>)
    requires cfg.maxAttempts >= 1 && Start(world) && TimelyRuns(cfg, me, world, events)
    ensures Runs(cfg, me, Sparing, world, events) && OwnersBusy(Run(cfg, me, world, events))
  {
    if events != [] {
      hide Next, Start, Unforged, Answered;
      var front, event := events[..|events| - 1], events[|events| - 1];
      TimelyIsGuarded(cfg, me, world, front);
      BusyStep(cfg, me, Run(cfg, me, world, front), event);
    }
  }

  /** A worker that resumes after its takeover has finished yields the message a second time. */
  lemma LateWorkerRepeats(cfg: Config, me: string, world: World, late: nat, other: nat, claim: Claim, r: Receiver, now: int)
    requires late != other && late in world.workers && world.workers[late].claim.key == claim.key
    requires world.workers[late].claim.envelope == claim.envelope
    requires ClaimFieldsOk(claim.key, Sha256(claim.envelope)) && claim.key in world.rows
    requires world.rows[claim.key].state.Processing? && world.rows[claim.key].envelope == Sha256(claim.envelope)
    requires world.rows[claim.key].updatedAt <= now - PROCESSING_TIMEOUT_MS
    requires Decrypt(r, claim.envelope, now).Some?
    ensures var taken := Next(cfg, me, world, BeginClaim(other, claim, r, now));
      var done := Next(cfg, me, taken, FinishClaim(other, r, true, now));
      && !Timely(done, late)
      && Next(cfg, me, done, FinishClaim(late, r, true, now)).yielded == world.yielded + [claim.key, claim.key]
  {
    hide Decrypt, ClaimFieldsOk, Next;
    BeginsNew(cfg, me, world, other, claim, r, now);
    var taken := Next(cfg, me, world, BeginClaim(other, claim, r, now));
    FinishesWell(cfg, me, taken, other, r, now);
    var done := Next(cfg, me, taken, FinishClaim(other, r, true, now));
    FinishesWell(cfg, me, done, late, r, now);
  }
}
