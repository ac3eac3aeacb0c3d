/** The receiver's durable inbox and the loop that processes claimed deliveries through it. */
module Inbox {
  import opened Wrappers
  import opened Text
  import opened Directory
  import opened Protocol
  import opened DirectoryContext
  import opened Broker

  const PROCESSING_TIMEOUT_MS := 300_000

  datatype RowState = Processing | Done | Failed

  datatype Row = Row(envelope: Digest<Envelope>, state: RowState, payload: Option<Bytes>, updatedAt: int)

  type Rows = map<MessageKey, Row>

  /** What begin reports: the caller owns the effect now, or the state it found. */
  datatype Prior = New | WasProcessing | WasDone | WasFailed

  datatype InboxFailure = MalformedDelivery | IdConflict | RowDisappeared | EndpointFailed

  predicate ClaimFieldsOk(key: MessageKey, digest: Digest<Envelope>) {
    IsIdentifier(key.sender) && key.id.HasVersion(7) && IsDigest(digest)
  }

  function BeginRow(rows: Rows, key: MessageKey, digest: Digest<Envelope>, now: int): Result<(Rows, Prior), InboxFailure> {
    if !ClaimFieldsOk(key, digest) then Err(MalformedDelivery)
    else if key in rows then
      var row := rows[key];
      if row.envelope != digest then Err(IdConflict)
      else if row.state.Processing? && row.updatedAt <= now - PROCESSING_TIMEOUT_MS then
        Ok((rows[key := row.(updatedAt := now)], New))
      else Ok((rows, match row.state case Processing => WasProcessing case Done => WasDone case Failed => WasFailed))
    else Ok((rows[key := Row(digest, Processing, None, now)], New))
  }

  /** The effect is granted to the first caller, and again only five minutes after the last grant while unfinished. */
  lemma GrantedExactly(rows: Rows, key: MessageKey, digest: Digest<Envelope>, now: int)
    requires ClaimFieldsOk(key, digest)
    ensures var r := BeginRow(rows, key, digest, now);
      && (r.Err? <==> key in rows && rows[key].envelope != digest)
      && (r.Ok? && r.value.1.New? <==>
            || key !in rows
            || (rows[key].envelope == digest && rows[key].state.Processing? && PROCESSING_TIMEOUT_MS <= now - rows[key].updatedAt))
      && (r.Ok? && r.value.1.New? ==> r.value.0 == rows[key := Row(digest, Processing, if key in rows then rows[key].payload else None, now)])
      && (r.Ok? && !r.value.1.New? ==> r.value.0 == rows)
  {
    hide ClaimFieldsOk;
  }

  /** A delivery is malformed exactly by its sender's ID, its message ID or its digest, whatever the inbox holds. */
  lemma MalformedExactly(rows: Rows, key: MessageKey, digest: Digest<Envelope>, now: int)
    ensures BeginRow(rows, key, digest, now) == Err(MalformedDelivery) <==>
      !IsIdentifier(key.sender) || !key.id.HasVersion(7) || (digest.Foreign? && !IsHex64(digest.text))
  {
    hide IsIdentifier, IsHex64;
  }

  function FinishRow(rows: Rows, key: MessageKey, payload: Option<Bytes>, now: int): Result<Rows, InboxFailure> {
    if key !in rows then Err(RowDisappeared)
    else Ok(rows[key := rows[key].(state := if payload.Some? then Done else Failed, payload := payload, updatedAt := now)])
  }

  function ReleaseRow(rows: Rows, key: MessageKey): Rows {
    map k | k in rows && !(k == key && rows[k].state.Processing?) :: rows[k]
  }

  /** Releasing gives up the row of an unfinished effect, so that the next caller gets it at once; every other row stays. */
  lemma ReleasedExactly(rows: Rows, key: MessageKey, k: MessageKey)
    ensures var r := ReleaseRow(rows, key);
      && (k in r <==> k in rows && (k == key ==> !rows[k].state.Processing?))
      && (k in r ==> r[k] == rows[k])
  {
  }

  /** The receiver: its directory, its name, and what its private keys open. */
  datatype Receiver = Receiver(directory: Snapshot, agent: string, signingKid: string, opens: Envelope -> Option<Bytes>)

  /** Endpoint validation first, then decryption. */
  function Decrypt(r: Receiver, e: Envelope, now: int): Option<Bytes> {
    if !Receives(e, ContextOf(r.directory, None, Some(r.agent), now, {})) then None else r.opens(e)
  }

  function AckFor(r: Receiver, claim: Claim, outcome: Outcome, now: int): AckBody {
    AckBody("tribe-ack/v1", r.agent, claim.key.id, claim.lease.id, now, Sha256(claim.envelope), outcome, r.signingKid)
  }

  datatype Fresh = Fresh(key: MessageKey, payload: Bytes)

  /** One claim without interruption: the rows after it, what it yields, and the outcome it reports, if any. */
  datatype Handled = Handled(rows: Rows, yielded: seq<Fresh>, outcome: Option<Outcome>)

  function Handle(r: Receiver, rows: Rows, claim: Claim, now: int): Result<Handled, InboxFailure> {
    var begun := BeginRow(rows, claim.key, Sha256(claim.envelope), now);
    if begun.Err? then Err(begun.error)
    else
      var (rows', prior) := begun.value;
      match prior
      case New =>
        var payload := Decrypt(r, claim.envelope, now);
        var finished := FinishRow(rows', claim.key, payload, now).value;
        Ok(Handled(finished, if payload.Some? then [Fresh(claim.key, payload.value)] else [],
          Some(if payload.Some? then Processed else TerminalFailed)))
      case WasProcessing => Ok(Handled(rows', [], None))
      case WasDone => Ok(Handled(rows', [], Some(Processed)))
      case WasFailed => Ok(Handled(rows', [], Some(TerminalFailed)))
  }

  /** A batch: rows, payloads and acknowledgements so far; it stops at the first failure. */
  datatype Batch = Batch(rows: Rows, yielded: seq<Fresh>, acks: seq<AckBody>, failure: Option<InboxFailure>)

  /** posts[i] tells whether the acknowledgement of the i-th claim, if one is sent, gets an answer. */
  function Process(r: Receiver, rows: Rows, claims: seq<Claim>, posts: seq<bool>, now: int): Batch
    requires |posts| == |claims|
  {
    if claims == [] then Batch(rows, [], [], None)
    else
      var n := |claims| - 1;
      var before := Process(r, rows, claims[..n], posts[..n], now);
      if before.failure.Some? then before
      else
        var handled := Handle(r, before.rows, claims[n], now);
        if handled.Err? then before.(failure := Some(handled.error))
        else if handled.value.outcome.None? then Batch(handled.value.rows, before.yielded + handled.value.yielded, before.acks, None)
        else
          Batch(handled.value.rows, before.yielded + handled.value.yielded,
            before.acks + [AckFor(r, claims[n], handled.value.outcome.value, now)],
            if posts[n] then None else Some(EndpointFailed))
  }

  lemma {:induction false} ProcessStops(r: Receiver, rows: Rows, claims: seq<Claim>, posts: seq<bool>, now: int, n: nat)
    requires |posts| == |claims| && n <= |claims|
    requires Process(r, rows, claims[..n], posts[..n], now).failure.Some?
    ensures Process(r, rows, claims, posts, now) == Process(r, rows, claims[..n], posts[..n], now)
  {
    if n < |claims| {
      var m := |claims| - 1;
      assert claims[..m][..n] == claims[..n] && posts[..m][..n] == posts[..n];
      hide Handle;
      ProcessStops(r, rows, claims[..m], posts[..m], now, n);
    } else {
      assert claims[..n] == claims && posts[..n] == posts;
    }
  }

  class InboxStore {
    var rows: Rows

    constructor ()
      ensures rows == map[]
    {
      rows := map[];
    }

    method Begin(key: MessageKey, digest: Digest<Envelope>, now: int) returns (r: Result<Prior, InboxFailure>)
      modifies this
      ensures BeginRow(old(rows), key, digest, now).Ok? ==>
        rows == BeginRow(old(rows), key, digest, now).value.0 && r == Ok(BeginRow(old(rows), key, digest, now).value.1)
      ensures BeginRow(old(rows), key, digest, now).Err? ==>
        rows == old(rows) && r == Err(BeginRow(old(rows), key, digest, now).error)
    {
      if !ClaimFieldsOk(key, digest) {
        return Err(MalformedDelivery);
      }
      if key in rows {
        var row := rows[key];
        if row.envelope != digest {
          return Err(IdConflict);
        }
        if row.state.Processing? && row.updatedAt <= now - PROCESSING_TIMEOUT_MS {
          rows := rows[key := row.(updatedAt := now)];
          return Ok(New);
        }
        match row.state
        case Processing => return Ok(WasProcessing);
        case Done => return Ok(WasDone);
        case Failed => return Ok(WasFailed);
      }
      rows := rows[key := Row(digest, Processing, None, now)];
      r := Ok(New);
    }

    method Finish(key: MessageKey, payload: Option<Bytes>, now: int) returns (r: Option<InboxFailure>)
      modifies this
      ensures FinishRow(old(rows), key, payload, now).Ok? ==> rows == FinishRow(old(rows), key, payload, now).value && r == None
      ensures FinishRow(old(rows), key, payload, now).Err? ==> rows == old(rows) && r == Some(RowDisappeared)
    {
      if key !in rows {
        return Some(RowDisappeared);
      }
      rows := rows[key := rows[key].(state := if payload.Some? then Done else Failed, payload := payload, updatedAt := now)];
      r := None;
    }

    method Release(key: MessageKey)
      modifies this
      ensures rows == ReleaseRow(old(rows), key)
    {
      if key in rows && rows[key].state.Processing? {
        rows := rows - {key};
      }
    }
  }

  lemma FinishAfterBegin(rows: Rows, key: MessageKey, digest: Digest<Envelope>, payload: Option<Bytes>, now: int)
    requires BeginRow(rows, key, digest, now).Ok?
    ensures FinishRow(BeginRow(rows, key, digest, now).value.0, key, payload, now).Ok?
  {
  }

  /** The processing loop of one claim response. The list of payloads is handed over only when every claim went through. */
  method ClaimAndProcess(store: InboxStore, r: Receiver, claims: seq<Claim>, posts: seq<bool>, now: int)
    returns (yielded: Result<seq<Fresh>, InboxFailure>, acks: seq<AckBody>)
    requires |posts| == |claims|
    modifies store
    ensures var batch := Process(r, old(store.rows), claims, posts, now);
      && store.rows == batch.rows
      && acks == batch.acks
      && yielded == if batch.failure.Some? then Err(batch.failure.value) else Ok(batch.yielded)
  {
    hide Decrypt, BeginRow, FinishRow;
    ghost var start := store.rows;
    var payloads: seq<Fresh> := [];
    acks := [];
    for n := 0 to |claims|
      invariant Process(r, start, claims[..n], posts[..n], now) == Batch(store.rows, payloads, acks, None)
    {
      var claim := claims[n];
      assert claims[..n + 1][..n] == claims[..n] && posts[..n + 1][..n] == posts[..n];
      ghost var found := store.rows;
      var begun := store.Begin(claim.key, Sha256(claim.envelope), now);
      if begun.Err? {
        ProcessStops(r, start, claims, posts, now, n + 1);
        return Err(begun.error), acks;
      }
      var outcome := Processed;
      if begun.value.New? {
        var payload := Decrypt(r, claim.envelope, now);
        FinishAfterBegin(found, claim.key, Sha256(claim.envelope), payload, now);
        var lost := store.Finish(claim.key, payload, now);
        if payload.Some? {
          payloads := payloads + [Fresh(claim.key, payload.value)];
        } else {
          outcome := TerminalFailed;
        }
      } else if begun.value.WasFailed? {
        outcome := TerminalFailed;
      }
      if !begun.value.WasProcessing? {
        acks := acks + [AckFor(r, claim, outcome, now)];
        if !posts[n] {
          ProcessStops(r, start, claims, posts, now, n + 1);
          return Err(EndpointFailed), acks;
        }
      }
    }
    assert claims[..|claims|] == claims && posts[..|posts|] == posts;
    yielded := Ok(payloads);
  }

  // ---- what the loop reports ----

  /** Handling reports success exactly over a processed row, failure over a failed one, and nothing over one in progress. */
  lemma HandledMeans(r: Receiver, rows: Rows, claim: Claim, now: int)
    requires Handle(r, rows, claim, now).Ok?
    ensures var h := Handle(r, rows, claim, now).value;
      && claim.key in h.rows && h.rows[claim.key].envelope == Sha256(claim.envelope)
      && (h.outcome.None? <==> h.rows[claim.key].state.Processing?)
      && (h.outcome == Some(Processed) <==> h.rows[claim.key].state.Done?)
      && (h.outcome == Some(TerminalFailed) <==> h.rows[claim.key].state.Failed?)
      && (forall k :: k != claim.key ==> (k in h.rows <==> k in rows) && (k in rows ==> h.rows[k] == rows[k]))
  {
    hide ClaimFieldsOk, Decrypt;
  }

  /** It yields a payload exactly when the effect is granted and the envelope opens; the row then keeps that very payload. */
  lemma YieldedMeans(r: Receiver, rows: Rows, claim: Claim, now: int)
    requires Handle(r, rows, claim, now).Ok?
    ensures var h := Handle(r, rows, claim, now).value;
      var granted := claim.key !in rows || (rows[claim.key].state.Processing? && rows[claim.key].updatedAt <= now - 300_000);
      && (h.yielded != [] <==> granted && Decrypt(r, claim.envelope, now).Some?)
      && (h.yielded != [] ==>
            h.yielded == [Fresh(claim.key, Decrypt(r, claim.envelope, now).value)]
            && h.rows[claim.key].payload == Decrypt(r, claim.envelope, now))
      && (!granted ==> h.rows == rows)
  {
    hide ClaimFieldsOk, Decrypt;
  }

  /** The n-th claim is reached: nothing before it failed. */
  predicate Reached(r: Receiver, rows: Rows, claims: seq<Claim>, posts: seq<bool>, now: int, n: nat)
    requires |posts| == |claims|
  {
    n <= |claims| && Process(r, rows, claims[..n], posts[..n], now).failure.None?
  }

  /** How the n-th claim is handled once reached. */
  function HandledAt(r: Receiver, rows: Rows, claims: seq<Claim>, posts: seq<bool>, now: int, n: nat): Result<Handled, InboxFailure>
    requires |posts| == |claims| && n < |claims|
  {
    Handle(r, Process(r, rows, claims[..n], posts[..n], now).rows, claims[n], now)
  }

  predicate Acked(r: Receiver, rows: Rows, claims: seq<Claim>, posts: seq<bool>, now: int, n: nat, a: AckBody)
    requires |posts| == |claims|
  {
    && n < |claims| && Reached(r, rows, claims, posts, now, n)
    && var h := HandledAt(r, rows, claims, posts, now, n);
    && h.Ok? && h.value.outcome.Some? && a == AckFor(r, claims[n], h.value.outcome.value, now)
  }

  predicate Yields(r: Receiver, rows: Rows, claims: seq<Claim>, posts: seq<bool>, now: int, n: nat, f: Fresh)
    requires |posts| == |claims|
  {
    && n < |claims| && Reached(r, rows, claims, posts, now, n)
    && HandledAt(r, rows, claims, posts, now, n).Ok? && f in HandledAt(r, rows, claims, posts, now, n).value.yielded
  }

  /** The loop goes past a claim exactly when it was handled and its acknowledgement, if one is due, was answered. */
  lemma GoesOnExactly(r: Receiver, rows: Rows, claims: seq<Claim>, posts: seq<bool>, now: int, n: nat)
    requires |posts| == |claims| && n < |claims|
    ensures Reached(r, rows, claims, posts, now, n + 1) <==>
      && Reached(r, rows, claims, posts, now, n)
      && HandledAt(r, rows, claims, posts, now, n).Ok?
      && (HandledAt(r, rows, claims, posts, now, n).value.outcome.Some? ==> posts[n])
  {
    hide Handle;
    assert claims[..n + 1][..n] == claims[..n] && posts[..n + 1][..n] == posts[..n];
  }

  /** A failed batch is as it was left at the claim that failed: later claims are not begun. */
  lemma FailureStops(r: Receiver, rows: Rows, claims: seq<Claim>, posts: seq<bool>, now: int, n: nat)
    requires |posts| == |claims| && n < |claims|
    requires Reached(r, rows, claims, posts, now, n) && !Reached(r, rows, claims, posts, now, n + 1)
    ensures Process(r, rows, claims, posts, now) == Process(r, rows, claims[..n + 1], posts[..n + 1], now)
    ensures var h := HandledAt(r, rows, claims, posts, now, n);
      Process(r, rows, claims, posts, now).failure == Some(if h.Err? then h.error else EndpointFailed)
  {
    hide Handle;
    assert claims[..n + 1][..n] == claims[..n] && posts[..n + 1][..n] == posts[..n];
    ProcessStops(r, rows, claims, posts, now, n + 1);
  }

  /** The acknowledgements are exactly those of the claims reached and handled with an outcome, the payloads exactly theirs. */
  lemma {:induction false} BatchReports(r: Receiver, rows: Rows, claims: seq<Claim>, posts: seq<bool>, now: int)
    requires |posts| == |claims|
    ensures var b := Process(r, rows, claims, posts, now);
      && (forall a :: a in b.acks <==> exists n: nat :: Acked(r, rows, claims, posts, now, n, a))
      && (forall f :: f in b.yielded <==> exists n: nat :: Yields(r, rows, claims, posts, now, n, f))
  {
    if claims != [] {
      hide Handle, Process, AckFor, Acked, Yields;
      var m := |claims| - 1;
      BatchReports(r, rows, claims[..m], posts[..m], now);
      LastReports(r, rows, claims, posts, now);
      forall n: nat, a | n < m ensures Acked(r, rows, claims, posts, now, n, a) <==> Acked(r, rows, claims[..m], posts[..m], now, n, a) {
        SameBefore(r, rows, claims, posts, now, n, a);
      }
      forall n: nat, f | n < m ensures Yields(r, rows, claims, posts, now, n, f) <==> Yields(r, rows, claims[..m], posts[..m], now, n, f) {
        SameYields(r, rows, claims, posts, now, n, f);
      }
      forall n: nat, a | Acked(r, rows, claims, posts, now, n, a) ensures n <= m {
        WithinAcked(r, rows, claims, posts, now, n, a);
      }
      forall n: nat, a | Acked(r, rows, claims[..m], posts[..m], now, n, a) ensures n < m {
        WithinAcked(r, rows, claims[..m], posts[..m], now, n, a);
      }
      forall n: nat, f | Yields(r, rows, claims, posts, now, n, f) ensures n <= m {
        WithinYields(r, rows, claims, posts, now, n, f);
      }
      forall n: nat, f | Yields(r, rows, claims[..m], posts[..m], now, n, f) ensures n < m {
        WithinYields(r, rows, claims[..m], posts[..m], now, n, f);
      }
    }
  }

  lemma WithinAcked(r: Receiver, rows: Rows, claims: seq<Claim>, posts: seq<bool>, now: int, n: nat, a: AckBody)
    requires |posts| == |claims| && Acked(r, rows, claims, posts, now, n, a)
    ensures n < |claims|
  {
  }

  lemma WithinYields(r: Receiver, rows: Rows, claims: seq<Claim>, posts: seq<bool>, now: int, n: nat, f: Fresh)
    requires |posts| == |claims| && Yields(r, rows, claims, posts, now, n, f)
    ensures n < |claims|
  {
  }

  lemma SameBefore(r: Receiver, rows: Rows, claims: seq<Claim>, posts: seq<bool>, now: int, n: nat, a: AckBody)
    requires |posts| == |claims| && n < |claims| - 1
    ensures var m := |claims| - 1;
      Acked(r, rows, claims, posts, now, n, a) <==> Acked(r, rows, claims[..m], posts[..m], now, n, a)
  {
    hide Handle, Process;
    assert claims[..|claims| - 1][..n] == claims[..n] && posts[..|claims| - 1][..n] == posts[..n];
  }

  lemma SameYields(r: Receiver, rows: Rows, claims: seq<Claim>, posts: seq<bool>, now: int, n: nat, f: Fresh)
    requires |posts| == |claims| && n < |claims| - 1
    ensures var m := |claims| - 1;
      Yields(r, rows, claims, posts, now, n, f) <==> Yields(r, rows, claims[..m], posts[..m], now, n, f)
  {
    hide Handle, Process;
    assert claims[..|claims| - 1][..n] == claims[..n] && posts[..|claims| - 1][..n] == posts[..n];
  }

  /** What the last claim adds to the reports. */
  lemma LastReports(r: Receiver, rows: Rows, claims: seq<Claim>, posts: seq<bool>, now: int)
    requires |posts| == |claims| > 0
    ensures var m := |claims| - 1;
      var before, b := Process(r, rows, claims[..m], posts[..m], now), Process(r, rows, claims, posts, now);
      && (forall a :: a in b.acks <==> a in before.acks || Acked(r, rows, claims, posts, now, m, a))
      && (forall f :: f in b.yielded <==> f in before.yielded || Yields(r, rows, claims, posts, now, m, f))
  {
    hide Handle, AckFor;
  }
}
