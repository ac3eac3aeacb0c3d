/** The claim log: append-only events folded into effective claims, and the audit over them. */
module Coordination {
  import opened Wrappers
  import opened Text
  import opened Sorting

  const MAX_LEASE_US := 24 * 3600 * 1_000_000

  datatype Kind = ClaimEvent | Renew | StatusEvent | ReleaseEvent

  datatype ClaimState = Ready | InProgress | InReview | Blocked | Done | Released

  predicate Active(s: ClaimState) {
    s.InProgress? || s.InReview? || s.Blocked?
  }

  predicate Terminal(s: ClaimState) {
    s.Done? || s.Released?
  }

  datatype Issue = Issue(repository: string, number: int)

  /** Instants are counted in microseconds. */
  datatype Event = Event(
    kind: Kind,
    id: string,
    claim: string,
    issue: Issue,
    principal: string,
    state: ClaimState,
    at: int,
    leaseUntil: Option<int>,
    resources: seq<string>,
    branch: Option<string>,
    supersedes: Option<string>)
  {
    predicate Live(now: int) {
      Active(state) && leaseUntil.Some? && now < leaseUntil.value
    }
  }

  function IssueResource(i: Issue): string
    requires i.number >= 0
  {
    "issue:" + i.repository + "#" + Decimal(i.number)
  }

  /** The state, lease and resource rules of a single event. */
  predicate WellFormed(e: Event) {
    && e.issue.number >= 1
    && e.resources != [] && Distinct(e.resources) && IssueResource(e.issue) in e.resources
    && (e.kind.ClaimEvent? ==> e.state.InProgress? && e.branch.Some?)
    && (e.kind.Renew? ==> Active(e.state))
    && (e.kind.ReleaseEvent? <==> e.state.Released?)
    && (if Active(e.state) then e.leaseUntil.Some? && e.at < e.leaseUntil.value <= e.at + MAX_LEASE_US else e.leaseUntil.None?)
  }

  /** What a single event must say: it claims its own issue, and a lease of at most a day exactly while it is active. */
  lemma WellFormedExactly(e: Event)
    ensures WellFormed(e) <==>
      && 1 <= e.issue.number && Distinct(e.resources) && "issue:" + e.issue.repository + "#" + Decimal(e.issue.number) in e.resources
      && (if e.state.InProgress? || e.state.InReview? || e.state.Blocked?
          then e.leaseUntil.Some? && e.at < e.leaseUntil.value <= e.at + 86_400_000_000
          else e.leaseUntil.None?)
      && (e.kind.ClaimEvent? ==> e.state.InProgress? && e.branch.Some?)
      && (e.kind.Renew? ==> !e.state.Ready? && !e.state.Done?)
      && (e.kind.ReleaseEvent? <==> e.state.Released?)
  {
    hide Distinct, Decimal;
  }

  datatype LogError =
    | DuplicateEvent
    | StartsWithoutClaim
    | ClaimedTwice
    | AfterTerminal
    | ChangedIdentity
    | NotMonotonic
    | AfterExpiry

  predicate SameIdentity(previous: Event, current: Event) {
    && current.issue == previous.issue
    && current.principal == previous.principal
    && current.resources == previous.resources
    && current.branch == previous.branch
    && current.supersedes == previous.supersedes
  }

  /** What the next event of a claim violates, given the claim's effective event, if any. */
  function Violation(previous: Option<Event>, e: Event): Option<LogError> {
    if previous.None? then
      if !e.kind.ClaimEvent? then Some(StartsWithoutClaim) else None
    else
      var p := previous.value;
      if e.kind.ClaimEvent? then Some(ClaimedTwice)
      else if Terminal(p.state) then Some(AfterTerminal)
      else if !SameIdentity(p, e) then Some(ChangedIdentity)
      else if e.at <= p.at then Some(NotMonotonic)
      else if !e.kind.ReleaseEvent? && p.leaseUntil.Some? && p.leaseUntil.value <= e.at then Some(AfterExpiry)
      else None
  }

  type Effective = map<string, Event>

  function Lookup(m: Effective, claim: string): Option<Event> {
    if claim in m then Some(m[claim]) else None
  }

  datatype Log = Log(ids: set<string>, effective: Effective)

  function Append(log: Log, e: Event): Result<Log, LogError> {
    if e.id in log.ids then Err(DuplicateEvent)
    else
      var v := Violation(Lookup(log.effective, e.claim), e);
      if v.Some? then Err(v.value) else Ok(Log(log.ids + {e.id}, log.effective[e.claim := e]))
  }

  function Fold(events: seq<Event>): Result<Log, LogError> {
    if events == [] then Ok(Log({}, map[]))
    else
      var before := Fold(events[..|events| - 1]);
      if before.Err? then before else Append(before.value, events[|events| - 1])
  }

  /** By instant, then by event ID. */
  predicate Before(a: Event, b: Event) {
    a.at < b.at || (a.at == b.at && Leq(a.id, b.id))
  }

  function InOrder(events: seq<Event>): seq<Event> {
    Sort(events, (a: Event, b: Event) => Before(a, b))
  }

  function Reduce(events: seq<Event>): Result<Effective, LogError> {
    var log := Fold(InOrder(events));
    if log.Ok? then Ok(log.value.effective) else Err(log.error)
  }

  method ReduceEvents(events: seq<Event>) returns (r: Result<Effective, LogError>)
    ensures r == Reduce(events)
  {
    var sorted := InOrder(events);
    var effective: Effective := map[];
    var ids: set<string> := {};
    for n := 0 to |sorted|
      invariant Fold(sorted[..n]) == Ok(Log(ids, effective))
    {
      var e := sorted[n];
      assert sorted[..n + 1][..n] == sorted[..n];
      if e.id in ids {
        FoldStops(sorted, n + 1);
        return Err(DuplicateEvent);
      }
      var violation := Violation(Lookup(effective, e.claim), e);
      if violation.Some? {
        FoldStops(sorted, n + 1);
        return Err(violation.value);
      }
      ids := ids + {e.id};
      effective := effective[e.claim := e];
    }
    assert sorted[..|sorted|] == sorted;
    r := Ok(effective);
  }

  lemma {:induction false} FoldStops(events: seq<Event>, n: nat)
    requires n <= |events| && Fold(events[..n]).Err?
    ensures Fold(events) == Fold(events[..n])
  {
    if n < |events| {
      assert events[..|events| - 1][..n] == events[..n];
      FoldStops(events[..|events| - 1], n);
    } else {
      assert events[..n] == events;
    }
  }

  /** Every prefix of an accepted log is accepted. */
  lemma PrefixAccepted(events: seq<Event>, n: nat)
    requires n <= |events| && Fold(events).Ok?
    ensures Fold(events[..n]).Ok?
  {
    if Fold(events[..n]).Err? {
      FoldStops(events, n);
    }
  }

  // ---- the result does not depend on the input order ----

  lemma BeforeIsTotal()
    ensures TotalOn((a: Event, b: Event) => Before(a, b))
  {
    var leq := (a: Event, b: Event) => Before(a, b);
    forall a: Event, b: Event ensures leq(a, b) || leq(b, a) {
      LeqTotal(a.id, b.id);
    }
    forall a: Event, b: Event, c: Event | leq(a, b) && leq(b, c) ensures leq(a, c) {
      if a.at == b.at == c.at {
        LeqTransitive(a.id, b.id, c.id);
      }
    }
  }

  predicate DistinctIds(events: seq<Event>) {
    forall i, j :: 0 <= i < j < |events| ==> events[i].id != events[j].id
  }

  /** An accepted log has no repeated event ID, and its ID set is exactly the IDs of its events. */
  lemma {:induction false} AcceptedIds(events: seq<Event>)
    requires Fold(events).Ok?
    ensures DistinctIds(events)
    ensures forall i :: 0 <= i < |events| ==> events[i].id in Fold(events).value.ids
    ensures forall x :: x in Fold(events).value.ids ==> exists i :: 0 <= i < |events| && events[i].id == x
  {
    hide Violation;
    if events != [] {
      var n := |events| - 1;
      AcceptedIds(events[..n]);
      forall x | x in Fold(events).value.ids ensures exists i :: 0 <= i < |events| && events[i].id == x {
        if x in Fold(events[..n]).value.ids {
          var i :| 0 <= i < n && events[..n][i].id == x;
          assert events[i].id == x;
        } else {
          assert events[n].id == x;
        }
      }
    }
  }

  lemma AcceptedSortsOneWay(xs: seq<Event>, ys: seq<Event>)
    requires multiset(xs) == multiset(ys) && Fold(InOrder(xs)).Ok?
    ensures InOrder(xs) == InOrder(ys)
  {
    var leq := (a: Event, b: Event) => Before(a, b);
    var sorted := InOrder(xs);
    AcceptedIds(sorted);
    BeforeIsTotal();
    forall a, b | a in xs && b in xs && leq(a, b) && leq(b, a) ensures a == b {
      LeqAntisymmetric(a.id, b.id);
      InMultiset(a, sorted, xs);
      InMultiset(b, sorted, xs);
      var i :| 0 <= i < |sorted| && sorted[i] == a;
      var j :| 0 <= j < |sorted| && sorted[j] == b;
    }
    SortForgetsOrder(xs, ys, leq);
  }

  /** Any order of the same events is accepted or rejected alike, and gives the same effective claims. */
  lemma OrderIrrelevant(xs: seq<Event>, ys: seq<Event>)
    requires multiset(xs) == multiset(ys)
    ensures Reduce(xs).Ok? <==> Reduce(ys).Ok?
    ensures Reduce(xs).Ok? ==> Reduce(xs) == Reduce(ys)
  {
    hide Fold, InOrder;
    if Fold(InOrder(xs)).Ok? {
      AcceptedSortsOneWay(xs, ys);
    } else if Fold(InOrder(ys)).Ok? {
      AcceptedSortsOneWay(ys, xs);
    }
  }

  // ---- one claim through time ----

  /** The events of one claim, in order. */
  function Of(events: seq<Event>, claim: string): (r: seq<Event>)
    ensures forall i :: 0 <= i < |r| ==> r[i] in events && r[i].claim == claim
  {
    if events == [] then []
    else
      var rest := Of(events[..|events| - 1], claim);
      if events[|events| - 1].claim == claim then rest + [events[|events| - 1]] else rest
  }

  /** What the log says about a claim at an instant: its last event not later than that. */
  function EffectiveAt(h: seq<Event>, t: int): Option<Event> {
    if h == [] then None
    else if h[|h| - 1].at <= t then Some(h[|h| - 1])
    else EffectiveAt(h[..|h| - 1], t)
  }

  /** A later event of a claim: it continues a claim not yet ended, under the same identity and within its lease. */
  predicate Follows(p: Event, e: Event) {
    && !e.kind.ClaimEvent?
    && SameIdentity(p, e)
    && !Terminal(p.state)
    && p.at < e.at
    && (e.kind.ReleaseEvent? || p.leaseUntil.None? || e.at < p.leaseUntil.value)
  }

  predicate Regular(h: seq<Event>) {
    && (h != [] ==> h[0].kind.ClaimEvent?)
    && forall i :: 0 <= i < |h| - 1 ==> FollowsAt(h, i)
  }

  predicate FollowsAt(h: seq<Event>, i: int)
    requires 0 <= i < |h| - 1
  {
    Follows(h[i], h[i + 1])
  }

  lemma RegularPrefix(h: seq<Event>, n: nat)
    requires Regular(h) && n <= |h|
    ensures Regular(h[..n])
  {
    forall i | 0 <= i < n - 1 ensures FollowsAt(h[..n], i) {
      assert FollowsAt(h, i);
    }
  }

  lemma NothingIsRegular()
    ensures Regular([])
  {
  }

  lemma RegularExtend(h: seq<Event>, e: Event)
    requires Regular(h) && (if h == [] then e.kind.ClaimEvent? else Follows(h[|h| - 1], e))
    ensures Regular(h + [e])
  {
    var more := h + [e];
    forall i | 0 <= i < |more| - 1 ensures FollowsAt(more, i) {
      assert i < |h| - 1 ==> FollowsAt(h, i);
    }
  }

  lemma AppendContinues(log: Log, e: Event, h: seq<Event>)
    requires Append(log, e).Ok? && (e.claim in log.effective <==> h != [])
    requires h != [] ==> log.effective[e.claim] == h[|h| - 1]
    ensures if h == [] then e.kind.ClaimEvent? else Follows(h[|h| - 1], e)
    ensures Append(log, e).value.effective == log.effective[e.claim := e]
  {
  }

  lemma AppendSpares(log: Log, e: Event, claim: string)
    requires Append(log, e).Ok? && e.claim != claim
    ensures claim in Append(log, e).value.effective <==> claim in log.effective
    ensures claim in log.effective ==> Append(log, e).value.effective[claim] == log.effective[claim]
  {
    hide Violation;
  }

  lemma FoldFront(events: seq<Event>)
    requires events != []
    ensures Fold(events).Ok? ==> Fold(events[..|events| - 1]).Ok?
    ensures Fold(events[..|events| - 1]).Ok? ==> Fold(events) == Append(Fold(events[..|events| - 1]).value, events[|events| - 1])
  {
    hide Append;
  }

  lemma OfFront(events: seq<Event>, claim: string)
    requires events != []
    ensures var front, e := events[..|events| - 1], events[|events| - 1];
      Of(events, claim) == if e.claim == claim then Of(front, claim) + [e] else Of(front, claim)
  {
  }

  lemma {:induction false} AcceptedClaimIsRegular(events: seq<Event>, claim: string)
    requires Fold(events).Ok?
    ensures Regular(Of(events, claim))
    ensures claim in Fold(events).value.effective <==> Of(events, claim) != []
    ensures Of(events, claim) != [] ==> Fold(events).value.effective[claim] == Of(events, claim)[|Of(events, claim)| - 1]
  {
    hide Follows, Regular, Append;
    if events == [] {
      NothingIsRegular();
    } else {
      hide Fold, Of;
      var front, e := events[..|events| - 1], events[|events| - 1];
      FoldFront(events);
      OfFront(events, claim);
      AcceptedClaimIsRegular(front, claim);
      if e.claim != claim {
        AppendSpares(Fold(front).value, e, claim);
      } else {
        AppendContinues(Fold(front).value, e, Of(front, claim));
        RegularExtend(Of(front, claim), e);
      }
    }
  }

  lemma OfPrefix(events: seq<Event>, claim: string)
    requires events != []
    ensures Of(events[..|events| - 1], claim) <= Of(events, claim)
  {
  }

  lemma RegularFront(events: seq<Event>, claim: string)
    requires events != [] && Regular(Of(events, claim))
    ensures Regular(Of(events[..|events| - 1], claim))
  {
    hide Regular, Of;
    OfPrefix(events, claim);
    var less := Of(events[..|events| - 1], claim);
    RegularPrefix(Of(events, claim), |less|);
    assert less == Of(events, claim)[..|less|];
  }

  ghost predicate AllRegular(events: seq<Event>) {
    forall c :: Regular(Of(events, c))
  }

  /** A log is accepted exactly when no event ID repeats and the history of each claim is regular. */
  lemma {:induction false} AcceptedExactly(events: seq<Event>)
    ensures Fold(events).Ok? <==> DistinctIds(events) && AllRegular(events)
  {
    hide Regular, Of, Append;
    if Fold(events).Ok? {
      AcceptedIds(events);
      forall c ensures Regular(Of(events, c)) {
        AcceptedClaimIsRegular(events, c);
      }
    } else if DistinctIds(events) && AllRegular(events) {
      var front := events[..|events| - 1];
      forall c ensures Regular(Of(front, c)) {
        RegularFront(events, c);
      }
      AcceptedExactly(front);
      LastAccepted(events);
    }
  }

  lemma LastAccepted(events: seq<Event>)
    requires events != [] && Fold(events[..|events| - 1]).Ok? && DistinctIds(events)
    requires Regular(Of(events, events[|events| - 1].claim))
    ensures Fold(events).Ok?
  {
    hide Regular, Fold, Of;
    var front, e := events[..|events| - 1], events[|events| - 1];
    AcceptedIds(front);
    AcceptedClaimIsRegular(front, e.claim);
    OfFront(events, e.claim);
    LastFollows(Of(front, e.claim), e);
    hide Follows, DistinctIds;
    assert e.id !in Fold(front).value.ids by {
      NewId(events, Fold(front).value.ids);
    }
    NoViolation(Fold(front).value.effective, Of(front, e.claim), e);
    FoldFront(events);
  }

  lemma NewId(events: seq<Event>, ids: set<string>)
    requires DistinctIds(events) && events != []
    requires var front := events[..|events| - 1]; forall x :: x in ids ==> exists i :: 0 <= i < |front| && front[i].id == x
    ensures events[|events| - 1].id !in ids
  {
  }

  lemma NoViolation(m: Effective, h: seq<Event>, e: Event)
    requires e.claim in m <==> h != []
    requires h != [] ==> m[e.claim] == h[|h| - 1]
    requires if h == [] then e.kind.ClaimEvent? else Follows(h[|h| - 1], e)
    ensures Violation(Lookup(m, e.claim), e).None?
  {
  }

  lemma LastFollows(h: seq<Event>, e: Event)
    requires Regular(h + [e])
    ensures if h == [] then e.kind.ClaimEvent? else Follows(h[|h| - 1], e)
  {
    if h != [] {
      assert FollowsAt(h + [e], |h| - 1);
    }
  }

  /** All events of an accepted claim name one issue, principal, branch and predecessor and the same resources. */
  lemma {:induction false} IdentityKept(h: seq<Event>, i: nat)
    requires Regular(h) && i < |h|
    ensures h[i].issue == h[0].issue && h[i].principal == h[0].principal && h[i].resources == h[0].resources
    ensures h[i].branch == h[0].branch && h[i].supersedes == h[0].supersedes
    ensures h[i].kind.ClaimEvent? <==> i == 0
  {
    if i > 0 {
      IdentityKept(h, i - 1);
      assert FollowsAt(h, i - 1);
    }
  }

  /** The log as it stood at an instant: events after it are not there yet. */
  function Upto(events: seq<Event>, t: int): (r: seq<Event>)
    ensures r <= events
  {
    if events == [] then []
    else if events[|events| - 1].at <= t then events
    else Upto(events[..|events| - 1], t)
  }

  predicate ByInstant(events: seq<Event>) {
    forall i, j :: 0 <= i < j < |events| ==> events[i].at <= events[j].at
  }

  lemma {:induction false} OfUpto(events: seq<Event>, claim: string, t: int)
    requires ByInstant(events)
    ensures EffectiveAt(Of(events, claim), t)
         == if Of(Upto(events, t), claim) == [] then None else Some(Of(Upto(events, t), claim)[|Of(Upto(events, t), claim)| - 1])
  {
    hide Of, EffectiveAt, ByInstant;
    if events == [] {
      OfAllUpto(events, claim, t);
      AllUpto(Of(events, claim), t);
    } else if events[|events| - 1].at <= t {
      InstantsUpto(events, t);
      OfAllUpto(events, claim, t);
      AllUpto(Of(events, claim), t);
    } else {
      InstantsFront(events);
      OfUpto(events[..|events| - 1], claim, t);
      OfLate(events, claim, t);
    }
  }

  lemma InstantsUpto(events: seq<Event>, t: int)
    requires ByInstant(events) && events != [] && events[|events| - 1].at <= t
    ensures forall i :: 0 <= i < |events| ==> events[i].at <= t
  {
  }

  lemma InstantsFront(events: seq<Event>)
    requires ByInstant(events) && events != []
    ensures ByInstant(events[..|events| - 1])
  {
  }

  lemma OfAllUpto(events: seq<Event>, claim: string, t: int)
    requires forall i :: 0 <= i < |events| ==> events[i].at <= t
    ensures forall i :: 0 <= i < |Of(events, claim)| ==> Of(events, claim)[i].at <= t
  {
    hide Of;
  }

  lemma OfLate(events: seq<Event>, claim: string, t: int)
    requires events != [] && t < events[|events| - 1].at
    ensures EffectiveAt(Of(events, claim), t) == EffectiveAt(Of(events[..|events| - 1], claim), t)
  {
    var rest, last := Of(events[..|events| - 1], claim), events[|events| - 1];
    if last.claim == claim {
      assert (rest + [last])[..|rest|] == rest;
    }
  }

  lemma AllUpto(h: seq<Event>, t: int)
    requires forall i :: 0 <= i < |h| ==> h[i].at <= t
    ensures EffectiveAt(h, t) == if h == [] then None else Some(h[|h| - 1])
  {
  }

  lemma SortedByInstant(events: seq<Event>)
    ensures ByInstant(InOrder(events))
  {
    var leq := (a: Event, b: Event) => Before(a, b);
    BeforeIsTotal();
    SortSorted(events, leq);
    var sorted := InOrder(events);
    forall i, j | 0 <= i < j < |sorted| ensures sorted[i].at <= sorted[j].at {
      assert leq(sorted[i], sorted[j]);
    }
  }

  /** A claim's last event up to an instant is exactly what reducing the log of that instant yields for it. */
  lemma EffectiveAtIsReduced(events: seq<Event>, claim: string, t: int)
    requires Reduce(events).Ok?
    ensures var early := Upto(InOrder(events), t);
      && Fold(early).Ok?
      && EffectiveAt(Of(InOrder(events), claim), t) == Lookup(Fold(early).value.effective, claim)
  {
    hide Fold, InOrder, Of, EffectiveAt, Upto, Regular, ByInstant;
    var sorted := InOrder(events);
    var early := Upto(sorted, t);
    SortedByInstant(events);
    PrefixAccepted(sorted, |early|);
    assert sorted[..|early|] == early;
    AcceptedClaimIsRegular(early, claim);
    OfUpto(sorted, claim, t);
  }

  /** The end of the last lease the claim held in an active state. */
  function LastLeaseEnd(h: seq<Event>): Option<int> {
    if h == [] then None
    else if Active(h[|h| - 1].state) then h[|h| - 1].leaseUntil
    else LastLeaseEnd(h[..|h| - 1])
  }

  ghost predicate EndedBy(h: seq<Event>, t: int) {
    exists i :: 0 <= i < |h| && Terminal(h[i].state) && h[i].at <= t
  }

  /** Where the last event not later than t stands. */
  lemma {:induction false} EffectivePlace(h: seq<Event>, t: int) returns (i: nat)
    requires Regular(h) && h != [] && h[0].at <= t
    ensures i < |h| && h[i].at <= t && EffectiveAt(h, t) == Some(h[i])
    ensures forall j :: i < j < |h| ==> t < h[j].at
  {
    if h[|h| - 1].at <= t {
      i := |h| - 1;
    } else {
      var front := h[..|h| - 1];
      RegularPrefix(h, |h| - 1);
      i := EffectivePlace(front, t);
    }
  }

  lemma {:induction false} Ordered(h: seq<Event>, i: nat, j: nat)
    requires Regular(h) && i < j < |h|
    ensures h[i].at < h[j].at && !Terminal(h[i].state)
  {
    assert FollowsAt(h, j - 1);
    if i < j - 1 {
      Ordered(h, i, j - 1);
    }
  }

  lemma {:induction false} LastLeaseOutlasts(h: seq<Event>, i: nat)
    requires Regular(h) && i < |h| && forall k :: 0 <= k < |h| ==> WellFormed(h[k]) && !h[k].state.Ready?
    requires Active(h[i].state)
    ensures LastLeaseEnd(h).Some?
    ensures i + 1 < |h| && Active(h[i + 1].state) ==> h[i + 1].at < LastLeaseEnd(h).value
    ensures (i + 1 == |h| || !Active(h[i + 1].state)) ==> LastLeaseEnd(h) == h[i].leaseUntil
  {
    var n := |h| - 1;
    if i < n {
      var front := h[..n];
      hide Follows, Regular;
      RegularPrefix(h, n);
      Ordered(h, n - 1, n);
      if i + 1 < n {
        Ordered(h, i + 1, n);
      }
      LastLeaseOutlasts(front, i);
    }
  }

  /**
   * A claim that never enters ready has a live lease at an instant from its claim event on
   * exactly when that instant lies before its last active lease end and no terminal event has come.
   */
  lemma LiveUntilItEnds(events: seq<Event>, claim: string, t: int)
    requires Reduce(events).Ok? && forall i :: 0 <= i < |events| ==> WellFormed(events[i])
    requires var h := Of(InOrder(events), claim);
      h != [] && h[0].at <= t && forall i :: 0 <= i < |h| ==> !h[i].state.Ready?
    ensures var h := Of(InOrder(events), claim);
      && EffectiveAt(h, t).Some? && LastLeaseEnd(h).Some?
      && (EffectiveAt(h, t).value.Live(t) <==> t < LastLeaseEnd(h).value && !EndedBy(h, t))
  {
    hide Fold, InOrder, Violation;
    var sorted := InOrder(events);
    var h := Of(sorted, claim);
    AcceptedClaimIsRegular(sorted, claim);
    forall k | 0 <= k < |h| ensures WellFormed(h[k]) {
      SortKeepsMembers(events, h[k]);
    }
    LiveHistory(h, t);
  }

  /** Whoever is live at an instant has been heard of within the last day. */
  lemma {:induction false} ADayWithoutNews(h: seq<Event>, t: int)
    requires forall k :: 0 <= k < |h| ==> WellFormed(h[k])
    requires EffectiveAt(h, t).Some? && EffectiveAt(h, t).value.Live(t)
    ensures exists i :: 0 <= i < |h| && h[i].at <= t < h[i].at + 24 * 60 * 60 * 1_000_000
  {
    if t < h[|h| - 1].at {
      var front := h[..|h| - 1];
      ADayWithoutNews(front, t);
      var i :| 0 <= i < |front| && front[i].at <= t < front[i].at + 24 * 60 * 60 * 1_000_000;
      assert h[i] == front[i];
    } else {
      assert h[|h| - 1].at <= t < h[|h| - 1].at + 24 * 60 * 60 * 1_000_000;
    }
  }

  lemma SortKeepsMembers(events: seq<Event>, e: Event)
    requires e in InOrder(events)
    ensures e in events
  {
    InMultiset(e, InOrder(events), events);
  }

  lemma LiveHistory(h: seq<Event>, t: int)
    requires Regular(h) && h != [] && h[0].at <= t
    requires forall k :: 0 <= k < |h| ==> WellFormed(h[k]) && !h[k].state.Ready?
    ensures EffectiveAt(h, t).Some? && LastLeaseEnd(h).Some?
    ensures EffectiveAt(h, t).value.Live(t) <==> t < LastLeaseEnd(h).value && !EndedBy(h, t)
  {
    var i := EffectivePlace(h, t);
    LastLeaseOutlasts(h, 0);
    if Active(h[i].state) {
      LastLeaseOutlasts(h, i);
      if i + 1 < |h| {
        assert FollowsAt(h, i);
      }
      if EndedBy(h, t) {
        var k :| 0 <= k < |h| && Terminal(h[k].state) && h[k].at <= t;
        if k < i {
          Ordered(h, k, i);
        }
      }
    } else {
      assert EndedBy(h, t);
    }
  }

  // ---- the audit ----

  datatype Finding =
    | UnknownSupersedes(claim: string, target: string)
    | PrematureSupersede(claim: string, target: string)
    | ExpiredLease(claim: string)
    | OverlappingClaims(left: string, right: string)

  predicate Unknown(m: Effective, claim: string)
    requires claim in m
  {
    m[claim].supersedes.Some? && m[claim].supersedes.value !in m
  }

  predicate Premature(m: Effective, claim: string)
    requires claim in m
  {
    && m[claim].supersedes.Some?
    && m[claim].supersedes.value in m
    && var target := m[m[claim].supersedes.value];
    && (m[claim].at <= target.at || target.Live(m[claim].at))
  }

  /** Somebody supersedes this claim properly. */
  predicate Superseded(m: Effective, claim: string) {
    exists c :: c in m && m[c].supersedes == Some(claim) && !Unknown(m, c) && !Premature(m, c)
  }

  predicate Lapsed(m: Effective, claim: string, now: int)
    requires claim in m
  {
    Active(m[claim].state) && !m[claim].Live(now) && !Superseded(m, claim)
  }

  predicate Overlap(a: Event, b: Event) {
    exists x :: x in a.resources && x in b.resources
  }

  predicate LiveAt(m: Effective, c: string, now: int) {
    c in m && m[c].Live(now)
  }

  predicate Clash(m: Effective, a: string, b: string, now: int)
    requires a in m && b in m
  {
    a != b && m[a].Live(now) && m[b].Live(now) && Overlap(m[a], m[b])
  }

  predicate Clean(m: Effective, now: int) {
    && (forall c :: c in m ==> !Unknown(m, c) && !Premature(m, c) && !Lapsed(m, c, now))
    && (forall a, b :: a in m && b in m ==> !Clash(m, a, b, now))
  }

  /** A finding about a predecessor that does not exist, or that had not ended when it was superseded. */
  predicate Misplaced(m: Effective, f: Finding) {
    match f
    case UnknownSupersedes(c, target) => c in m && m[c].supersedes == Some(target) && target !in m
    case PrematureSupersede(c, target) =>
      && c in m && m[c].supersedes == Some(target) && target in m
      && (m[c].at <= m[target].at || m[target].Live(m[c].at))
    case _ => false
  }

  /** The findings that are true of these claims at this time; two claims that clash are named in the order of their IDs. */
  predicate Stands(m: Effective, now: int, f: Finding) {
    match f
    case ExpiredLease(c) => c in m && Lapsed(m, c, now)
    case OverlappingClaims(a, b) => a in m && b in m && Clash(m, a, b, now) && Leq(a, b)
    case _ => Misplaced(m, f)
  }

  predicate InIdOrder(ids: seq<string>) {
    forall i, j :: 0 <= i < j < |ids| ==> Leq(ids[i], ids[j])
  }

  /** The claim IDs as a list; the loops of the audit go through it in this order. */
  method Listed(m: Effective) returns (ids: seq<string>)
    ensures Distinct(ids) && InIdOrder(ids) && forall c :: c in ids <==> c in m
  {
    ids := [];
    var left := m.Keys;
    while left != {}
      invariant Distinct(ids) && left <= m.Keys
      invariant forall c :: c in ids <==> c in m && c !in left
      decreases |left|
    {
      var c :| c in left;
      DistinctExtend(ids, c);
      ids, left := ids + [c], left - {c};
    }
    var leq := (a: string, b: string) => Leq(a, b);
    DistinctForgetsOrder(ids, Sort(ids, leq));
    forall c ensures c in ids <==> c in Sort(ids, leq) {
      InMultiset(c, ids, Sort(ids, leq));
    }
    SortedById(ids);
    ids := Sort(ids, leq);
  }

  lemma SortedById(ids: seq<string>)
    ensures InIdOrder(Sort(ids, (a: string, b: string) => Leq(a, b)))
  {
    var leq := (a: string, b: string) => Leq(a, b);
    forall a, b ensures leq(a, b) || leq(b, a) {
      LeqTotal(a, b);
    }
    forall a, b, c | leq(a, b) && leq(b, c) ensures leq(a, c) {
      LeqTransitive(a, b, c);
    }
    SortSorted(ids, leq);
    var sorted := Sort(ids, leq);
    forall i, j | 0 <= i < j < |sorted| ensures Leq(sorted[i], sorted[j]) {
      assert leq(sorted[i], sorted[j]);
    }
  }

  /** The claims that properly end this one among those listed. */
  predicate Ends(m: Effective, ids: seq<string>, c: string)
    requires forall i :: 0 <= i < |ids| ==> ids[i] in m
  {
    exists i :: 0 <= i < |ids| && m[ids[i]].supersedes == Some(c) && !Unknown(m, ids[i]) && !Premature(m, ids[i])
  }

  method CheckSupersedes(m: Effective, ids: seq<string>) returns (findings: seq<Finding>, superseded: set<string>)
    requires Distinct(ids) && forall i :: 0 <= i < |ids| ==> ids[i] in m
    ensures Distinct(findings) && forall f :: f in findings <==> Misplaced(m, f) && f.claim in ids
    ensures forall c :: c in superseded <==> Ends(m, ids, c)
  {
    findings, superseded := [], {};
    for n := 0 to |ids|
      invariant Distinct(findings)
      invariant forall f :: f in findings <==> Misplaced(m, f) && f.claim in ids[..n]
      invariant forall c :: c in superseded <==> Ends(m, ids[..n], c)
    {
      var c := ids[n];
      var claim := m[c];
      OneMore(m, ids, n);
      assert c !in ids[..n];
      if claim.supersedes.Some? {
        var target := claim.supersedes.value;
        if target !in m {
          DistinctExtend(findings, UnknownSupersedes(c, target));
          findings := findings + [UnknownSupersedes(c, target)];
        } else if m[target].at >= claim.at || m[target].Live(claim.at) {
          DistinctExtend(findings, PrematureSupersede(c, target));
          findings := findings + [PrematureSupersede(c, target)];
        } else {
          superseded := superseded + {target};
        }
      }
    }
    assert ids[..|ids|] == ids;
  }

  lemma OneMore(m: Effective, ids: seq<string>, n: nat)
    requires n < |ids| && forall i :: 0 <= i < |ids| ==> ids[i] in m
    ensures forall x :: x in ids[..n + 1] <==> x in ids[..n] || x == ids[n]
    ensures forall c :: Ends(m, ids[..n + 1], c) <==>
      Ends(m, ids[..n], c) || (m[ids[n]].supersedes == Some(c) && !Unknown(m, ids[n]) && !Premature(m, ids[n]))
  {
    hide Unknown, Premature;
    var more, less := ids[..n + 1], ids[..n];
    assert more == less + [ids[n]];
    forall c ensures Ends(m, more, c) <==>
      Ends(m, less, c) || (m[ids[n]].supersedes == Some(c) && !Unknown(m, ids[n]) && !Premature(m, ids[n]))
    {
      if Ends(m, less, c) {
        var i :| 0 <= i < n && m[less[i]].supersedes == Some(c) && !Unknown(m, less[i]) && !Premature(m, less[i]);
        assert more[i] == less[i];
      }
      assert more[n] == ids[n];
    }
  }

  method CheckLeases(m: Effective, ids: seq<string>, superseded: set<string>, now: int) returns (findings: seq<Finding>, live: seq<string>)
    requires Distinct(ids) && InIdOrder(ids) && forall i :: 0 <= i < |ids| ==> ids[i] in m
    ensures Distinct(findings) && forall f :: f in findings <==> Expired(m, ids, superseded, now, f)
    ensures Distinct(live) && InIdOrder(live) && forall c :: c in live <==> c in ids && m[c].Live(now)
  {
    findings, live := [], [];
    for n := 0 to |ids|
      invariant Distinct(findings) && forall f :: f in findings <==> Expired(m, ids[..n], superseded, now, f)
      invariant Distinct(live) && InIdOrder(live) && forall c :: c in live <==> c in ids[..n] && m[c].Live(now)
    {
      var c := ids[n];
      assert forall x :: x in ids[..n + 1] <==> x in ids[..n] || x == c;
      assert c !in ids[..n];
      if Active(m[c].state) && (m[c].leaseUntil.None? || m[c].leaseUntil.value <= now) && c !in superseded {
        DistinctExtend(findings, ExpiredLease(c));
        findings := findings + [ExpiredLease(c)];
      }
      if m[c].Live(now) {
        DistinctExtend(live, c);
        IdOrderExtend(ids, n, live);
        live := live + [c];
      }
    }
    assert ids[..|ids|] == ids;
  }

  lemma IdOrderExtend(ids: seq<string>, n: nat, live: seq<string>)
    requires InIdOrder(ids) && n < |ids| && InIdOrder(live) && forall c :: c in live ==> c in ids[..n]
    ensures InIdOrder(live + [ids[n]])
  {
    hide Leq;
    forall c | c in live ensures Leq(c, ids[n]) {
      var i :| 0 <= i < n && ids[..n][i] == c;
    }
  }

  predicate Expired(m: Effective, ids: seq<string>, superseded: set<string>, now: int, f: Finding)
    requires forall i :: 0 <= i < |ids| ==> ids[i] in m
  {
    f.ExpiredLease? && f.claim in ids && Active(m[f.claim].state) && !m[f.claim].Live(now) && f.claim !in superseded
  }

  /** This finding names the i-th live claim and a later one that shares a resource with it. */
  predicate ClashesAt(m: Effective, live: seq<string>, i: int, j: int, f: Finding)
    requires forall k :: 0 <= k < |live| ==> live[k] in m
  {
    0 <= i < j < |live| && Overlap(m[live[i]], m[live[j]]) && f == OverlappingClaims(live[i], live[j])
  }

  method CheckOverlaps(m: Effective, live: seq<string>) returns (findings: seq<Finding>)
    requires Distinct(live) && forall i :: 0 <= i < |live| ==> live[i] in m
    ensures Distinct(findings) && forall f :: f in findings <==> exists i, j :: ClashesAt(m, live, i, j, f)
  {
    hide Overlap;
    findings := [];
    for i := 0 to |live|
      invariant Distinct(findings) && forall f :: f in findings <==> exists k, j :: k < i && ClashesAt(m, live, k, j, f)
    {
      for j := i + 1 to |live|
        invariant Distinct(findings)
        invariant forall f :: f in findings <==> exists k, l :: (k < i || (k == i && l < j)) && ClashesAt(m, live, k, l, f)
      {
        assert live[i] != live[j];
        if Overlap(m[live[i]], m[live[j]]) && live[i] != live[j] {
          var found := OverlappingClaims(live[i], live[j]);
          assert ClashesAt(m, live, i, j, found);
          DistinctExtend(findings, found);
          findings := findings + [found];
        }
      }
    }
  }

  /**
   * The audit of a log: an error when it does not reduce, otherwise each finding that stands, once. There are none
   * exactly when the log is clean; then the claims live at that time hold pairwise disjoint resources.
   */
  method AuditEvents(events: seq<Event>, now: int) returns (r: Result<Effective, LogError>, findings: seq<Finding>)
    ensures r == Reduce(events)
    ensures r.Err? ==> findings == []
    ensures r.Ok? ==> Distinct(findings) && forall f :: f in findings <==> Stands(r.value, now, f)
    ensures r.Ok? ==> (findings == [] <==> Clean(r.value, now))
    ensures r.Ok? && findings == [] ==> forall a, b, x | LiveAt(r.value, a, now) && LiveAt(r.value, b, now) && a != b ::
      x in r.value[a].resources ==> x !in r.value[b].resources
  {
    hide Reduce, Unknown, Premature, Overlap, Stands, Clean, Misplaced, Expired, Ends, ClashesAt, Distinct;
    findings := [];
    r := ReduceEvents(events);
    if r.Err? {
      return;
    }
    var m := r.value;
    var ids := Listed(m);
    var first, superseded := CheckSupersedes(m, ids);
    var second, live := CheckLeases(m, ids, superseded, now);
    var third := CheckOverlaps(m, live);
    findings := first + second + third;
    forall f ensures f in findings <==> Stands(m, now, f) {
      StandsByParts(m, ids, superseded, live, now, f);
    }
    OnceByParts(m, ids, superseded, live, now, first, second, third);
    CleanMeans(m, now);
    assert findings == [] <==> forall f :: f !in findings by {
      assert findings != [] ==> findings[0] in findings;
    }
    if findings == [] {
      forall a, b, x | LiveAt(m, a, now) && LiveAt(m, b, now) && a != b && x in m[a].resources
        ensures x !in m[b].resources
      {
        CleanMeansDisjoint(m, now, a, b, x);
      }
    }
  }

  lemma SupersededIsListed(m: Effective, ids: seq<string>, c: string)
    requires forall x :: x in ids <==> x in m
    ensures Superseded(m, c) <==> Ends(m, ids, c)
  {
    hide Unknown, Premature;
    if Superseded(m, c) {
      var x :| x in m && m[x].supersedes == Some(c) && !Unknown(m, x) && !Premature(m, x);
      var i :| 0 <= i < |ids| && ids[i] == x;
    }
  }

  lemma OverlapSymmetric(a: Event, b: Event)
    ensures Overlap(a, b) <==> Overlap(b, a)
  {
  }

  lemma ClashesListed(m: Effective, live: seq<string>, now: int, f: Finding)
    requires Distinct(live) && InIdOrder(live) && forall c :: c in live <==> c in m && m[c].Live(now)
    ensures (exists i, j :: ClashesAt(m, live, i, j, f)) <==> f.OverlappingClaims? && Stands(m, now, f)
  {
    hide Overlap, Leq;
    if f.OverlappingClaims? && Stands(m, now, f) {
      var i :| 0 <= i < |live| && live[i] == f.left;
      var j :| 0 <= j < |live| && live[j] == f.right;
      if j < i {
        LeqAntisymmetric(f.left, f.right);
      }
      assert ClashesAt(m, live, i, j, f);
    }
  }

  /** Which of the three loops reports a finding. */
  lemma StandsByParts(m: Effective, ids: seq<string>, superseded: set<string>, live: seq<string>, now: int, f: Finding)
    requires forall c :: c in ids <==> c in m
    requires forall c :: c in superseded <==> Ends(m, ids, c)
    requires Distinct(live) && InIdOrder(live) && forall c :: c in live <==> c in ids && m[c].Live(now)
    ensures Stands(m, now, f) <==>
      || (Misplaced(m, f) && f.claim in ids)
      || Expired(m, ids, superseded, now, f)
      || exists i, j :: ClashesAt(m, live, i, j, f)
  {
    hide Ends, Superseded, Unknown, Premature, Overlap, InIdOrder, Distinct;
    ClashesListed(m, live, now, f);
    if f.ExpiredLease? {
      SupersededIsListed(m, ids, f.claim);
    }
  }

  lemma OnceByParts(m: Effective, ids: seq<string>, superseded: set<string>, live: seq<string>, now: int,
      first: seq<Finding>, second: seq<Finding>, third: seq<Finding>)
    requires forall c :: c in ids <==> c in m
    requires forall c :: c in live <==> c in ids && m[c].Live(now)
    requires Distinct(first) && Distinct(second) && Distinct(third)
    requires forall f :: f in first <==> Misplaced(m, f) && f.claim in ids
    requires forall f :: f in second <==> Expired(m, ids, superseded, now, f)
    requires forall f :: f in third <==> exists i, j :: ClashesAt(m, live, i, j, f)
    ensures Distinct(first + second + third)
  {
    DistinctConcat(first, second);
    DistinctConcat(first + second, third);
  }

  lemma DistinctConcat(xs: seq<Finding>, ys: seq<Finding>)
    requires Distinct(xs) && Distinct(ys) && forall x :: x in xs ==> x !in ys
    ensures Distinct(xs + ys)
  {
    var all := xs + ys;
    forall i, j | 0 <= i < j < |all| ensures all[i] != all[j] {
      if i < |xs| <= j {
        assert all[i] in xs && all[j] in ys;
      }
    }
  }

  lemma CleanMeans(m: Effective, now: int)
    ensures Clean(m, now) <==> forall f :: !Stands(m, now, f)
  {
    hide Overlap, Superseded, Leq;
    if forall f :: !Stands(m, now, f) {
      forall c | c in m ensures !Unknown(m, c) && !Premature(m, c) && !Lapsed(m, c, now) {
        if m[c].supersedes.Some? {
          assert !Stands(m, now, UnknownSupersedes(c, m[c].supersedes.value));
          assert !Stands(m, now, PrematureSupersede(c, m[c].supersedes.value));
        }
        assert !Stands(m, now, ExpiredLease(c));
      }
      forall a, b | a in m && b in m ensures !Clash(m, a, b, now) {
        LeqTotal(a, b);
        OverlapSymmetric(m[a], m[b]);
        assert !Stands(m, now, OverlappingClaims(a, b)) && !Stands(m, now, OverlappingClaims(b, a));
      }
    }
  }

  lemma CleanMeansDisjoint(m: Effective, now: int, a: string, b: string, x: string)
    requires Clean(m, now)
    requires LiveAt(m, a, now) && LiveAt(m, b, now) && a != b
    requires x in m[a].resources
    ensures x !in m[b].resources
  {
    assert !Clash(m, a, b, now);
  }
}
