/** Resumable delivery of one rendering: a durable cursor that moves only when a part is confirmed. */
module MirrorProgress {
  import opened Wrappers
  import opened Directory
  import opened Protocol
  import opened Broker

  datatype Progress = Progress(envelope: Digest<Envelope>, rendered: Digest<seq<string>>, total: nat, next: nat)

  type Cursors = map<MessageKey, Progress>

  datatype DeliveryFailure =
    | InvalidParts
    | RenderingChanged
    | CursorChanged
    | Retry(part: nat, total: nat)
    | Ambiguous(part: nat, total: nat)
    | Stopped

  function ResumeAt(rows: Cursors, key: MessageKey, envelope: Digest<Envelope>, parts: seq<string>): Result<(Cursors, nat), DeliveryFailure> {
    if parts == [] then Err(InvalidParts)
    else if key !in rows then Ok((rows[key := Progress(envelope, Sha256(parts), |parts|, 0)], 0))
    else if rows[key].envelope != envelope || rows[key].rendered != Sha256(parts) || rows[key].total != |parts| then Err(RenderingChanged)
    else Ok((rows, rows[key].next))
  }

  /** A conditional update: it takes hold only where the cursor still stands at the delivered part. */
  function AdvanceTo(rows: Cursors, key: MessageKey, envelope: Digest<Envelope>, parts: seq<string>, delivered: nat): Result<Cursors, DeliveryFailure> {
    if parts == [] then Err(InvalidParts)
    else if key !in rows || rows[key] != Progress(envelope, Sha256(parts), |parts|, delivered) then Err(CursorChanged)
    else Ok(rows[key := rows[key].(next := delivered + 1)])
  }

  function Cleared(rows: Cursors, key: MessageKey): Cursors {
    map k | k in rows && k != key :: rows[k]
  }

  /**
   * How sending one part goes: the process ends before it, no confirmation, a confirmation whose cursor write
   * fails (taking hold or not), or both done.
   */
  datatype Outcome = Killed | SendFailed | CursorFailed(committed: bool) | Confirmed

  /** One call to the sender, and whether the cursor moved past its part. */
  datatype PartSent = PartSent(key: MessageKey, parts: seq<string>, index: nat, moved: bool)

  datatype Delivered = Delivered(rows: Cursors, sends: seq<PartSent>, failure: Option<DeliveryFailure>)

  datatype Attempt = Attempt(key: MessageKey, envelope: Digest<Envelope>, parts: seq<string>, outcomes: seq<Outcome>)

  /** Sends the part at the cursor. */
  function SendOne(a: Attempt, rows: Cursors, index: nat): Delivered
    requires index < |a.parts| <= |a.outcomes|
  {
    var moved := AdvanceTo(rows, a.key, a.envelope, a.parts, index);
    match a.outcomes[index]
    case Killed => Delivered(rows, [], Some(Stopped))
    case SendFailed => Delivered(rows, [PartSent(a.key, a.parts, index, false)], Some(Retry(index + 1, |a.parts|)))
    case CursorFailed(committed) =>
      if committed && moved.Ok?
      then Delivered(moved.value, [PartSent(a.key, a.parts, index, true)], Some(Ambiguous(index + 1, |a.parts|)))
      else Delivered(rows, [PartSent(a.key, a.parts, index, false)], Some(Ambiguous(index + 1, |a.parts|)))
    case Confirmed =>
      if moved.Ok?
      then Delivered(moved.value, [PartSent(a.key, a.parts, index, true)], None)
      else Delivered(rows, [PartSent(a.key, a.parts, index, false)], Some(Ambiguous(index + 1, |a.parts|)))
  }

  /** Sends from the cursor on, up to but excluding end, stopping at the first failure. */
  function SendUpTo(a: Attempt, rows: Cursors, start: nat, end: nat): Delivered
    requires start <= end <= |a.parts| <= |a.outcomes|
    decreases end
  {
    if start == end then Delivered(rows, [], None)
    else
      var before := SendUpTo(a, rows, start, end - 1);
      if before.failure.Some? then before
      else
        var one := SendOne(a, before.rows, end - 1);
        Delivered(one.rows, before.sends + one.sends, one.failure)
  }

  function Deliver(rows: Cursors, a: Attempt): Delivered
    requires |a.parts| <= |a.outcomes|
  {
    var resumed := ResumeAt(rows, a.key, a.envelope, a.parts);
    if resumed.Err? then Delivered(rows, [], Some(resumed.error))
    else if resumed.value.1 > |a.parts| then Delivered(resumed.value.0, [], None)
    else SendUpTo(a, resumed.value.0, resumed.value.1, |a.parts|)
  }

  class MirrorProgressStore {
    var rows: Cursors

    constructor ()
      ensures rows == map[]
    {
      rows := map[];
    }

    method Resume(key: MessageKey, envelope: Digest<Envelope>, parts: seq<string>) returns (r: Result<nat, DeliveryFailure>)
      modifies this
      ensures var resumed := ResumeAt(old(rows), key, envelope, parts);
        if resumed.Ok? then rows == resumed.value.0 && r == Ok(resumed.value.1) else rows == old(rows) && r == Err(resumed.error)
    {
      if parts == [] {
        return Err(InvalidParts);
      }
      if key !in rows {
        rows := rows[key := Progress(envelope, Sha256(parts), |parts|, 0)];
        return Ok(0);
      }
      var row := rows[key];
      if row.envelope != envelope || row.rendered != Sha256(parts) || row.total != |parts| {
        return Err(RenderingChanged);
      }
      r := Ok(row.next);
    }

    method Advance(key: MessageKey, envelope: Digest<Envelope>, parts: seq<string>, delivered: nat) returns (r: Option<DeliveryFailure>)
      modifies this
      ensures var moved := AdvanceTo(old(rows), key, envelope, parts, delivered);
        if moved.Ok? then rows == moved.value && r == None else rows == old(rows) && r == Some(moved.error)
    {
      if parts == [] {
        return Some(InvalidParts);
      }
      if key !in rows || rows[key] != Progress(envelope, Sha256(parts), |parts|, delivered) {
        return Some(CursorChanged);
      }
      rows := rows[key := rows[key].(next := delivered + 1)];
      r := None;
    }

    method Clear(key: MessageKey)
      modifies this
      ensures rows == Cleared(old(rows), key)
    {
      rows := map k | k in rows && k != key :: rows[k];
    }
  }

  /** Resumes at the cursor and sends part after part. sends records the calls to the sender. */
  method DeliverRenderedParts(store: MirrorProgressStore, a: Attempt) returns (failure: Option<DeliveryFailure>, sends: seq<PartSent>)
    requires |a.parts| <= |a.outcomes|
    modifies store
    ensures Delivered(store.rows, sends, failure) == Deliver(old(store.rows), a)
  {
    hide SendOne;
    sends := [];
    var start := store.Resume(a.key, a.envelope, a.parts);
    if start.Err? {
      return Some(start.error), sends;
    }
    ghost var resumed := store.rows;
    var index := start.value;
    while index < |a.parts|
      invariant start.value <= |a.parts| ==> start.value <= index <= |a.parts|
      invariant start.value > |a.parts| ==> index == start.value && store.rows == resumed && sends == []
      invariant start.value <= |a.parts| ==> SendUpTo(a, resumed, start.value, index) == Delivered(store.rows, sends, None)
    {
      SendOneMeans(a, store.rows, index);
      ghost var one := SendOne(a, store.rows, index);
      var moved: Option<DeliveryFailure> := None;
      var outcome := a.outcomes[index];
      if outcome.Killed? {
        failure := Some(Stopped);
        SendStops(a, resumed, start.value, index + 1, |a.parts|);
        return;
      }
      if outcome.SendFailed? {
        sends, failure := sends + [PartSent(a.key, a.parts, index, false)], Some(Retry(index + 1, |a.parts|));
        SendStops(a, resumed, start.value, index + 1, |a.parts|);
        return;
      }
      if outcome.Confirmed? || outcome.committed {
        moved := store.Advance(a.key, a.envelope, a.parts, index);
      } else {
        moved := Some(CursorChanged);
      }
      sends := sends + [PartSent(a.key, a.parts, index, moved.None?)];
      if moved.Some? || outcome.CursorFailed? {
        failure := Some(Ambiguous(index + 1, |a.parts|));
        SendStops(a, resumed, start.value, index + 1, |a.parts|);
        return;
      }
      index := index + 1;
    }
    failure := None;
  }

  lemma SendOneMeans(a: Attempt, rows: Cursors, index: nat)
    requires index < |a.parts| <= |a.outcomes|
    ensures var moved := AdvanceTo(rows, a.key, a.envelope, a.parts, index);
      var tried := a.outcomes[index].Confirmed? || (a.outcomes[index].CursorFailed? && a.outcomes[index].committed);
      var ok := tried && moved.Ok?;
      SendOne(a, rows, index) == Delivered(
        if ok then moved.value else rows,
        if a.outcomes[index].Killed? then [] else [PartSent(a.key, a.parts, index, ok)],
        if a.outcomes[index].Killed? then Some(Stopped)
        else if a.outcomes[index].SendFailed? then Some(Retry(index + 1, |a.parts|))
        else if ok && a.outcomes[index].Confirmed? then None
        else Some(Ambiguous(index + 1, |a.parts|)))
  {
  }

  lemma {:induction false} SendStops(a: Attempt, rows: Cursors, start: nat, n: nat, end: nat)
    requires start <= n <= end <= |a.parts| <= |a.outcomes|
    requires SendUpTo(a, rows, start, n).failure.Some?
    ensures SendUpTo(a, rows, start, end) == SendUpTo(a, rows, start, n)
    decreases end
  {
    if n < end {
      SendStops(a, rows, start, n, end - 1);
    }
  }

  // ---- any sequence of interrupted attempts and clearings ----

  /** The mirror tries to deliver a message, or clears its row once its inbox effect is settled. */
  datatype Event = Try(attempt: Attempt) | Wipe(key: MessageKey)

  ghost predicate AttemptsOk(events: seq<Event>) {
    forall i :: 0 <= i < |events| && events[i].Try? ==> |events[i].attempt.parts| <= |events[i].attempt.outcomes|
  }

  function RowsAfter(events: seq<Event>): Cursors
    requires AttemptsOk(events)
  {
    if events == [] then map[]
    else
      var rows := RowsAfter(events[..|events| - 1]);
      match events[|events| - 1]
      case Try(attempt) => Deliver(rows, attempt).rows
      case Wipe(key) => Cleared(rows, key)
  }

  function Only(sends: seq<PartSent>, key: MessageKey): (r: seq<PartSent>)
    ensures forall i :: 0 <= i < |r| ==> r[i].key == key
  {
    if sends == [] then []
    else
      var rest := Only(sends[..|sends| - 1], key);
      if sends[|sends| - 1].key == key then rest + [sends[|sends| - 1]] else rest
  }

  /** Every call to the sender for one message since its row was last cleared, over all attempts, in order. */
  function TraceOf(events: seq<Event>, key: MessageKey): seq<PartSent>
    requires AttemptsOk(events)
  {
    if events == [] then []
    else
      var front := events[..|events| - 1];
      match events[|events| - 1]
      case Try(attempt) => TraceOf(front, key) + Only(Deliver(RowsAfter(front), attempt).sends, key)
      case Wipe(k) => if k == key then [] else TraceOf(front, key)
  }

  /** The first attempt for a message since its row was last cleared; without parts nothing is attempted. */
  function FirstTry(events: seq<Event>, key: MessageKey): (r: Option<Attempt>)
    ensures r.Some? ==> r.value.key == key && r.value.parts != [] && Try(r.value) in events
  {
    if events == [] then None
    else
      var before := FirstTry(events[..|events| - 1], key);
      match events[|events| - 1]
      case Try(attempt) => if before.None? && attempt.key == key && attempt.parts != [] then Some(attempt) else before
      case Wipe(k) => if k == key then None else before
  }

  function Moves(trace: seq<PartSent>): nat {
    if trace == [] then 0 else Moves(trace[..|trace| - 1]) + if trace[|trace| - 1].moved then 1 else 0
  }

  /** Each call sends the part right after all parts the cursor has moved past, from one and the same rendering. */
  predicate Paced(trace: seq<PartSent>, parts: seq<string>) {
    forall n :: 0 <= n < |trace| ==> trace[n].index == Moves(trace[..n]) && trace[n].parts == parts && trace[n].index < |parts|
  }

  /** The durable row agrees with everything ever sent for its message. */
  predicate Agrees(rows: Cursors, key: MessageKey, trace: seq<PartSent>) {
    if key !in rows then trace == []
    else
      && rows[key].rendered.Sha256?
      && rows[key].total == |rows[key].rendered.of|
      && rows[key].next == Moves(trace) <= rows[key].total
      && Paced(trace, rows[key].rendered.of)
  }

  lemma {:induction false} OnlyOwn(sends: seq<PartSent>, key: MessageKey)
    ensures (forall i :: 0 <= i < |sends| ==> sends[i].key == key) ==> Only(sends, key) == sends
    ensures (forall i :: 0 <= i < |sends| ==> sends[i].key != key) ==> Only(sends, key) == []
  {
    if sends != [] {
      OnlyOwn(sends[..|sends| - 1], key);
    }
  }

  lemma PacedExtend(trace: seq<PartSent>, parts: seq<string>, sending: PartSent)
    requires Paced(trace, parts) && sending.index == Moves(trace) < |parts| && sending.parts == parts
    ensures Paced(trace + [sending], parts)
    ensures Moves(trace + [sending]) == Moves(trace) + if sending.moved then 1 else 0
  {
    var more := trace + [sending];
    assert more[..|more| - 1] == trace;
    forall n | 0 <= n < |more|
      ensures more[n].index == Moves(more[..n]) && more[n].parts == parts && more[n].index < |parts|
    {
      if n < |trace| {
        assert more[..n] == trace[..n];
      }
    }
  }

  lemma SendOneKeeps(a: Attempt, rows: Cursors, index: nat, trace: seq<PartSent>)
    requires index < |a.parts| <= |a.outcomes|
    requires a.key in rows && rows[a.key] == Progress(a.envelope, Sha256(a.parts), |a.parts|, index)
    requires Agrees(rows, a.key, trace)
    ensures var one := SendOne(a, rows, index);
      && (forall i :: 0 <= i < |one.sends| ==> one.sends[i].key == a.key)
      && Agrees(one.rows, a.key, trace + one.sends)
      && one.rows == rows[a.key := one.rows[a.key]]
      && (one.failure.None? ==> one.rows[a.key] == Progress(a.envelope, Sha256(a.parts), |a.parts|, index + 1))
  {
    hide Paced, Moves, SendOne;
    SendOneMeans(a, rows, index);
    var one := SendOne(a, rows, index);
    if one.sends != [] {
      PacedExtend(trace, a.parts, one.sends[0]);
      assert one.sends == [one.sends[0]];
    } else {
      assert trace + [] == trace;
    }
  }

  /** Sending on keeps the row in step with the trace; a run to the end without failure leaves the cursor there. */
  lemma {:induction false} SendKeeps(a: Attempt, rows: Cursors, start: nat, end: nat, trace: seq<PartSent>)
    requires start <= end <= |a.parts| <= |a.outcomes|
    requires a.key in rows && rows[a.key] == Progress(a.envelope, Sha256(a.parts), |a.parts|, start)
    requires Agrees(rows, a.key, trace)
    ensures var r := SendUpTo(a, rows, start, end);
      && (forall i :: 0 <= i < |r.sends| ==> r.sends[i].key == a.key)
      && Agrees(r.rows, a.key, trace + r.sends)
      && (forall k :: k != a.key ==> (k in r.rows <==> k in rows) && (k in rows ==> r.rows[k] == rows[k]))
      && (r.failure.None? ==> a.key in r.rows && r.rows[a.key] == Progress(a.envelope, Sha256(a.parts), |a.parts|, end))
    decreases end
  {
    hide SendOne, Agrees;
    if start == end {
      assert trace + [] == trace;
    } else {
      SendKeeps(a, rows, start, end - 1, trace);
      var before := SendUpTo(a, rows, start, end - 1);
      if before.failure.None? {
        SendOneKeeps(a, before.rows, end - 1, trace + before.sends);
        var one := SendOne(a, before.rows, end - 1);
        assert trace + (before.sends + one.sends) == (trace + before.sends) + one.sends;
      }
    }
  }

  lemma DeliverKeeps(a: Attempt, rows: Cursors, key: MessageKey, trace: seq<PartSent>)
    requires |a.parts| <= |a.outcomes| && Agrees(rows, key, trace)
    ensures Agrees(Deliver(rows, a).rows, key, trace + Only(Deliver(rows, a).sends, key))
    ensures a.key == key && Deliver(rows, a).failure.None? ==>
      && key in Deliver(rows, a).rows
      && Deliver(rows, a).rows[key] == Progress(a.envelope, Sha256(a.parts), |a.parts|, |a.parts|)
  {
    hide Paced, SendUpTo;
    var resumed := ResumeAt(rows, a.key, a.envelope, a.parts);
    assert trace + [] == trace;
    if resumed.Ok? {
      var start := resumed.value.1;
      if key == a.key {
        FirstAgrees(resumed.value.0, key, trace, rows);
        SendKeeps(a, resumed.value.0, start, |a.parts|, trace);
        OnlyOwn(SendUpTo(a, resumed.value.0, start, |a.parts|).sends, key);
      } else if start <= |a.parts| {
        OthersUntouched(a, resumed.value.0, start, |a.parts|, key);
        OnlyOwn(SendUpTo(a, resumed.value.0, start, |a.parts|).sends, key);
      }
    }
  }

  lemma FirstAgrees(rows: Cursors, key: MessageKey, trace: seq<PartSent>, before: Cursors)
    requires Agrees(before, key, trace) && key in rows
    requires key in before ==> rows[key] == before[key]
    requires key !in before ==> rows[key].next == 0 && rows[key].rendered.Sha256? && rows[key].total == |rows[key].rendered.of|
    ensures Agrees(rows, key, trace)
  {
  }

  lemma {:induction false} OthersUntouched(a: Attempt, rows: Cursors, start: nat, end: nat, key: MessageKey)
    requires start <= end <= |a.parts| <= |a.outcomes| && key != a.key
    ensures var r := SendUpTo(a, rows, start, end);
      && (forall i :: 0 <= i < |r.sends| ==> r.sends[i].key == a.key)
      && (key in r.rows <==> key in rows) && (key in rows ==> r.rows[key] == rows[key])
    decreases end
  {
    if start < end {
      OthersUntouched(a, rows, start, end - 1, key);
    }
  }

  lemma {:induction false} RunAgrees(events: seq<Event>, key: MessageKey)
    requires AttemptsOk(events)
    ensures Agrees(RowsAfter(events), key, TraceOf(events, key))
  {
    if events != [] {
      hide Deliver, Agrees;
      var front := events[..|events| - 1];
      RunAgrees(front, key);
      match events[|events| - 1]
      case Try(attempt) => DeliverKeeps(attempt, RowsAfter(front), key, TraceOf(front, key));
      case Wipe(k) => ClearKeeps(RowsAfter(front), k, key, TraceOf(front, key));
    } else {
      assert Agrees(map[], key, []);
    }
  }

  lemma ClearKeeps(rows: Cursors, k: MessageKey, key: MessageKey, trace: seq<PartSent>)
    requires Agrees(rows, key, trace)
    ensures Agrees(Cleared(rows, k), key, if k == key then [] else trace)
  {
    hide Paced;
  }

  // ---- what a reader may rely on ----

  /**
   * Since the row of a message was last cleared, neighbouring sends show one rendering, and the part index stays,
   * when the first did not move the cursor, or grows by one.
   */
  lemma NeverSkipsNeverFalls(events: seq<Event>, key: MessageKey, n: nat)
    requires AttemptsOk(events) && n + 1 < |TraceOf(events, key)|
    ensures var trace := TraceOf(events, key);
      && trace[n + 1].index == trace[n].index + (if trace[n].moved then 1 else 0)
      && trace[n + 1].parts == trace[n].parts
  {
    hide TraceOf, RowsAfter;
    RunAgrees(events, key);
    var trace := TraceOf(events, key);
    assert trace[..n + 1][..n] == trace[..n];
  }

  lemma {:induction false} MovedOncePerPart(trace: seq<PartSent>, parts: seq<string>, i: nat)
    requires Paced(trace, parts) && i < Moves(trace)
    ensures exists n :: 0 <= n < |trace| && trace[n].index == i && trace[n].moved
  {
    var last := |trace| - 1;
    var front := trace[..last];
    assert forall n :: 0 <= n < |front| ==> front[..n] == trace[..n];
    if i < Moves(front) {
      MovedOncePerPart(front, parts, i);
      var n :| 0 <= n < |front| && front[n].index == i && front[n].moved;
      assert trace[n] == front[n];
    } else {
      assert trace[last].index == i && trace[last].moved;
    }
  }

  /** A normal return means that every part of this rendering has been sent since the last clearing, its send confirmed by the cursor. */
  lemma NormalReturnSentAll(events: seq<Event>, a: Attempt, i: nat)
    requires AttemptsOk(events) && |a.parts| <= |a.outcomes|
    requires Deliver(RowsAfter(events), a).failure.None?
    requires i < |a.parts|
    ensures var trace := TraceOf(events + [Try(a)], a.key);
      exists n :: 0 <= n < |trace| && trace[n].index == i && trace[n].moved && trace[n].parts == a.parts
  {
    var run := events + [Try(a)];
    assert run[..|run| - 1] == events;
    RunAgrees(events, a.key);
    RunAgrees(run, a.key);
    DeliverKeeps(a, RowsAfter(events), a.key, TraceOf(events, a.key));
    assert RowsAfter(run) == Deliver(RowsAfter(events), a).rows;
    hide Deliver, TraceOf, RowsAfter;
    assert RowsAfter(run)[a.key] == Progress(a.envelope, Sha256(a.parts), |a.parts|, |a.parts|);
    MovedOncePerPart(TraceOf(run, a.key), a.parts, i);
  }

  /** The row of a message holds envelope and rendering of the first attempt since the last clearing. */
  predicate FixedBy(rows: Cursors, key: MessageKey, first: Option<Attempt>) {
    && (key in rows <==> first.Some?)
    && (key in rows ==> rows[key].envelope == first.value.envelope && rows[key].rendered == Sha256(first.value.parts)
                        && rows[key].total == |first.value.parts|)
  }

  lemma {:induction false} SendKeepsFixed(a: Attempt, rows: Cursors, start: nat, end: nat, key: MessageKey, first: Option<Attempt>)
    requires start <= end <= |a.parts| <= |a.outcomes| && FixedBy(rows, key, first)
    ensures FixedBy(SendUpTo(a, rows, start, end).rows, key, first)
    decreases end
  {
    if start < end {
      SendKeepsFixed(a, rows, start, end - 1, key, first);
      var before := SendUpTo(a, rows, start, end - 1);
      SendOneMeans(a, before.rows, end - 1);
    }
  }

  lemma {:induction false} FirstFixes(events: seq<Event>, key: MessageKey)
    requires AttemptsOk(events)
    ensures FixedBy(RowsAfter(events), key, FirstTry(events, key))
  {
    if events != [] {
      hide SendUpTo;
      var front := events[..|events| - 1];
      FirstFixes(front, key);
      match events[|events| - 1]
      case Try(a) =>
        var resumed := ResumeAt(RowsAfter(front), a.key, a.envelope, a.parts);
        if resumed.Ok? && resumed.value.1 <= |a.parts| {
          SendKeepsFixed(a, resumed.value.0, resumed.value.1, |a.parts|, key, FirstTry(events, key));
        }
      case Wipe(_) =>
    }
  }

  /**
   * The first attempt since the last clearing fixes envelope and rendering: an attempt is refused as changed exactly
   * when it differs from it, and then nothing is sent and no row changes.
   */
  lemma ChangedRenderingRefused(events: seq<Event>, a: Attempt)
    requires AttemptsOk(events) && |a.parts| <= |a.outcomes| && a.parts != []
    ensures var first, r := FirstTry(events, a.key), Deliver(RowsAfter(events), a);
      && (r.failure == Some(RenderingChanged) <==>
            first.Some? && (first.value.envelope != a.envelope || first.value.parts != a.parts))
      && (r.failure == Some(RenderingChanged) ==> r.rows == RowsAfter(events) && r.sends == [])
  {
    hide RowsAfter, FirstTry, SendUpTo;
    FirstFixes(events, a.key);
    var resumed := ResumeAt(RowsAfter(events), a.key, a.envelope, a.parts);
    if resumed.Ok? && resumed.value.1 <= |a.parts| {
      SendFailures(a, resumed.value.0, resumed.value.1, |a.parts|);
    }
  }

  lemma {:induction false} SendFailures(a: Attempt, rows: Cursors, start: nat, end: nat)
    requires start <= end <= |a.parts| <= |a.outcomes|
    ensures SendUpTo(a, rows, start, end).failure != Some(RenderingChanged)
    decreases end
  {
    if start < end {
      SendFailures(a, rows, start, end - 1);
    }
  }

  /** Every send since the last clearing shows the rendering of the first attempt. */
  lemma OneRendering(events: seq<Event>, key: MessageKey, n: nat)
    requires AttemptsOk(events) && n < |TraceOf(events, key)|
    ensures FirstTry(events, key).Some? && TraceOf(events, key)[n].parts == FirstTry(events, key).value.parts
  {
    hide TraceOf, RowsAfter, FirstTry;
    RunAgrees(events, key);
    FirstFixes(events, key);
  }

  // ---- what one attempt sends and how it says it failed ----

  /** Which part an attempt stopped at and why, seen from the row it leaves. */
  predicate StoppedAt(a: Attempt, row: Progress, sends: seq<PartSent>, failure: DeliveryFailure) {
    match failure
    case Retry(part, total) =>
      && 1 <= part <= total == |a.parts| <= |a.outcomes| && a.outcomes[part - 1].SendFailed?
      && row.next == part - 1 && sends != [] && sends[|sends| - 1] == PartSent(a.key, a.parts, part - 1, false)
    case Ambiguous(part, total) =>
      && 1 <= part <= total == |a.parts| <= |a.outcomes| && a.outcomes[part - 1].CursorFailed?
      && sends != [] && sends[|sends| - 1] == PartSent(a.key, a.parts, part - 1, a.outcomes[part - 1].committed)
      && row.next == (if a.outcomes[part - 1].committed then part else part - 1)
    case Stopped => row.next < |a.parts| <= |a.outcomes| && a.outcomes[row.next].Killed?
    case _ => false
  }

  /** The parts go out one after the other from the cursor, each but perhaps the last confirmed. */
  predicate InTurn(a: Attempt, start: nat, sends: seq<PartSent>) {
    forall i :: 0 <= i < |sends| ==>
      sends[i].key == a.key && sends[i].parts == a.parts && sends[i].index == start + i && (i < |sends| - 1 ==> sends[i].moved)
  }

  predicate AllMoved(sends: seq<PartSent>, count: nat) {
    |sends| == count && forall i :: 0 <= i < |sends| ==> sends[i].moved
  }

  lemma SendOneShape(a: Attempt, rows: Cursors, index: nat)
    requires index < |a.parts| <= |a.outcomes|
    requires a.key in rows && rows[a.key] == Progress(a.envelope, Sha256(a.parts), |a.parts|, index)
    ensures var one := SendOne(a, rows, index);
      && a.key in one.rows
      && (one.failure.Some? ==> StoppedAt(a, one.rows[a.key], one.sends, one.failure.value))
      && (one.failure.None? ==> one.rows[a.key] == Progress(a.envelope, Sha256(a.parts), |a.parts|, index + 1))
      && (one.failure.None? ==> one.sends == [PartSent(a.key, a.parts, index, true)])
      && (one.sends == [] || one.sends == [PartSent(a.key, a.parts, index, one.sends[0].moved)])
  {
  }

  lemma {:induction false} SendShape(a: Attempt, rows: Cursors, start: nat, end: nat)
    requires start <= end <= |a.parts| <= |a.outcomes|
    requires a.key in rows && rows[a.key] == Progress(a.envelope, Sha256(a.parts), |a.parts|, start)
    ensures var r := SendUpTo(a, rows, start, end);
      && a.key in r.rows && InTurn(a, start, r.sends)
      && (r.failure.Some? ==> StoppedAt(a, r.rows[a.key], r.sends, r.failure.value))
      && (r.failure.None? ==> AllMoved(r.sends, end - start))
      && (r.failure.None? ==> r.rows[a.key] == Progress(a.envelope, Sha256(a.parts), |a.parts|, end))
    decreases end
  {
    hide StoppedAt, InTurn, AllMoved, SendOne;
    if start < end {
      SendShape(a, rows, start, end - 1);
      var before := SendUpTo(a, rows, start, end - 1);
      if before.failure.None? {
        SendOneShape(a, before.rows, end - 1);
        var one := SendOne(a, before.rows, end - 1);
        GoesOnInTurn(a, start, before.sends, one.sends, end - 1 - start);
        if one.failure.Some? {
          StopsLater(a, one.rows[a.key], before.sends, one.sends, one.failure.value);
        }
      }
    } else {
      NothingSent(a, start);
    }
  }

  lemma NothingSent(a: Attempt, start: nat)
    ensures InTurn(a, start, []) && AllMoved([], 0)
  {
  }

  lemma GoesOnInTurn(a: Attempt, start: nat, before: seq<PartSent>, last: seq<PartSent>, count: nat)
    requires InTurn(a, start, before) && AllMoved(before, count)
    requires last == [] || last == [PartSent(a.key, a.parts, start + count, last[0].moved)]
    ensures InTurn(a, start, before + last)
    ensures last != [] && last[0].moved ==> AllMoved(before + last, count + 1)
  {
  }

  lemma StopsLater(a: Attempt, row: Progress, before: seq<PartSent>, last: seq<PartSent>, failure: DeliveryFailure)
    requires StoppedAt(a, row, last, failure)
    ensures StoppedAt(a, row, before + last, failure)
  {
  }

  /**
   * After any run, an attempt at a rendering that is not refused sends the parts from the cursor on, in turn, and either
   * sends all that were left and returns, or names the part it stopped at, why, and leaves the cursor there.
   */
  lemma AttemptMeans(events: seq<Event>, a: Attempt)
    requires AttemptsOk(events) && |a.parts| <= |a.outcomes| && a.parts != []
    requires Deliver(RowsAfter(events), a).failure != Some(RenderingChanged)
    ensures var r := Deliver(RowsAfter(events), a);
      var start := if a.key in RowsAfter(events) then RowsAfter(events)[a.key].next else 0;
      && start <= |a.parts| && a.key in r.rows && InTurn(a, start, r.sends)
      && (r.failure.Some? ==> StoppedAt(a, r.rows[a.key], r.sends, r.failure.value))
      && (r.failure.None? ==> |r.sends| == |a.parts| - start && r.rows[a.key].next == |a.parts|)
  {
    hide RowsAfter, TraceOf, Paced, SendUpTo, StoppedAt, InTurn;
    var rows := RowsAfter(events);
    RunAgrees(events, a.key);
    var resumed := ResumeAt(rows, a.key, a.envelope, a.parts);
    if resumed.Ok? {
      SendShape(a, resumed.value.0, resumed.value.1, |a.parts|);
    }
  }

  /** Without parts an attempt fails at once. */
  lemma NoPartsFail(rows: Cursors, a: Attempt)
    requires |a.parts| <= |a.outcomes|
    ensures Deliver(rows, a).failure == Some(InvalidParts) ==> Deliver(rows, a).rows == rows && Deliver(rows, a).sends == []
    ensures a.parts == [] ==> Deliver(rows, a).failure == Some(InvalidParts)
  {
    if a.parts != [] && ResumeAt(rows, a.key, a.envelope, a.parts).Ok? {
      hide SendUpTo;
      var resumed := ResumeAt(rows, a.key, a.envelope, a.parts).value;
      if resumed.1 <= |a.parts| {
        NeverInvalid(a, resumed.0, resumed.1, |a.parts|);
      }
    }
  }

  lemma {:induction false} NeverInvalid(a: Attempt, rows: Cursors, start: nat, end: nat)
    requires start <= end <= |a.parts| <= |a.outcomes|
    ensures SendUpTo(a, rows, start, end).failure != Some(InvalidParts)
    decreases end
  {
    if start < end {
      NeverInvalid(a, rows, start, end - 1);
    }
  }
}
