/** When composition succeeds, and why its result depends only on the set of announcements. */
module RotationOrder {
  import opened Wrappers
  import opened Text
  import opened Sorting
  import opened Directory
  import opened Rotation
  import opened RotationValidity

  ghost predicate AllVerify(base: Snapshot, roots: Roots, anns: seq<Announcement>, c: Ceremony) {
    forall a :: a in anns ==> AnnouncementOk(base, roots, a, c)
  }

  function Names(anns: seq<Announcement>): seq<string> {
    Map((a: Announcement) => a.terms.agentId, anns)
  }

  function Nonces(anns: seq<Announcement>): seq<Bytes> {
    Map((a: Announcement) => a.terms.nonce, anns)
  }

  /** No agent announces twice and no nonce is replayed. */
  ghost predicate NoTwice(anns: seq<Announcement>) {
    Distinct(Names(anns)) && Distinct(Nonces(anns))
  }

  /** verified files exactly the given announcements under their agents. */
  ghost predicate Files(verified: map<string, Announcement>, anns: seq<Announcement>) {
    && (forall a :: a in anns ==> a.terms.agentId in verified && verified[a.terms.agentId] == a)
    && (forall id :: id in verified ==> verified[id] in anns && verified[id].terms.agentId == id)
  }

  lemma FilesNames(verified: map<string, Announcement>, anns: seq<Announcement>, id: string)
    requires Files(verified, anns)
    ensures id in verified <==> id in Names(anns)
  {
    if id in verified {
      var i :| 0 <= i < |anns| && anns[i] == verified[id];
      assert Names(anns)[i] == id;
    }
    if id in Names(anns) {
      var i :| 0 <= i < |anns| && Names(anns)[i] == id;
      assert anns[i] in anns;
    }
  }

  lemma FilesExtend(verified: map<string, Announcement>, anns: seq<Announcement>, a: Announcement)
    requires Files(verified, anns) && a.terms.agentId !in verified
    ensures Files(verified[a.terms.agentId := a], anns + [a])
  {
    var more := verified[a.terms.agentId := a];
    assert forall b :: b in anns + [a] <==> b in anns || b == a;
  }

  lemma ListsExtend(anns: seq<Announcement>, a: Announcement)
    ensures Names(anns + [a]) == Names(anns) + [a.terms.agentId]
    ensures Nonces(anns + [a]) == Nonces(anns) + [a.terms.nonce]
    ensures NoTwice(anns + [a]) <==> NoTwice(anns) && a.terms.agentId !in Names(anns) && a.terms.nonce !in Nonces(anns)
  {
    assert Names(anns + [a]) == Names(anns) + [a.terms.agentId];
    assert Nonces(anns + [a]) == Nonces(anns) + [a.terms.nonce];
    DistinctExtend(Names(anns), a.terms.agentId);
    DistinctExtend(Nonces(anns), a.terms.nonce);
  }

  lemma VerifyExtend(base: Snapshot, roots: Roots, anns: seq<Announcement>, a: Announcement, c: Ceremony)
    ensures AllVerify(base, roots, anns + [a], c) <==> AllVerify(base, roots, anns, c) && AnnouncementOk(base, roots, a, c)
  {
    hide AnnouncementOk;
    assert forall b :: b in anns + [a] <==> b in anns || b == a;
  }

  /** The collection loop accepts exactly the lists in which every member verifies and none repeats. */
  lemma {:induction false} CollectExactly(base: Snapshot, roots: Roots, anns: seq<Announcement>, c: Ceremony)
    ensures Collect(base, roots, anns, c).Some? <==> AllVerify(base, roots, anns, c) && NoTwice(anns)
    ensures Collect(base, roots, anns, c).Some? ==>
      var d := Collect(base, roots, anns, c).value;
      Files(d.verified, anns) && d.agents == Names(anns) && forall n :: n in d.nonces <==> n in Nonces(anns)
  {
    hide AnnouncementOk, AllVerify, Names, Nonces;
    if anns == [] {
      NothingCollected(base, roots, c);
    } else {
      var front, last := anns[..|anns| - 1], anns[|anns| - 1];
      assert anns == front + [last];
      CollectExactly(base, roots, front, c);
      VerifyExtend(base, roots, front, last, c);
      ListsExtend(front, last);
      var before := Collect(base, roots, front, c);
      if before.Some? {
        FilesNames(before.value.verified, front, last.terms.agentId);
        if last.terms.agentId !in before.value.verified {
          FilesExtend(before.value.verified, front, last);
        }
      }
    }
  }

  lemma NothingCollected(base: Snapshot, roots: Roots, c: Ceremony)
    ensures AllVerify(base, roots, [], c) && NoTwice([]) && Names([]) == [] && Nonces([]) == []
  {
  }

  ghost predicate SameAgents(ids: seq<string>, agents: seq<Agent>) {
    SortIds(ids) == SortIds(ActiveIds(agents))
  }

  lemma CodePointOrder(ids: seq<string>)
    ensures TotalOn<string>((a, b) => Leq(a, b))
    ensures AntisymmetricOn(ids, (a, b) => Leq(a, b))
  {
    forall a, b ensures Leq(a, b) || Leq(b, a) {
      LeqTotal(a, b);
    }
    forall a, b, c | Leq(a, b) && Leq(b, c) ensures Leq(a, c) {
      LeqTransitive(a, b, c);
    }
    forall a, b | Leq(a, b) && Leq(b, a) ensures a == b {
      LeqAntisymmetric(a, b);
    }
  }

  lemma SortIdsForgetsOrder(ids: seq<string>, ids': seq<string>)
    requires multiset(ids) == multiset(ids')
    ensures SortIds(ids) == SortIds(ids')
  {
    CodePointOrder(ids);
    SortForgetsOrder(ids, ids', (a, b) => Leq(a, b));
  }

  lemma {:induction false} ActiveIdsDistinct(agents: seq<Agent>)
    requires UniqueAgents(agents)
    ensures Distinct(ActiveIds(agents))
  {
    if agents != [] {
      var front, last := agents[..|agents| - 1], agents[|agents| - 1];
      ActiveIdsDistinct(front);
      assert forall a :: a in front ==> a.id != last.id;
      DistinctExtend(ActiveIds(front), last.id);
    }
  }

  /** With verified announcements the agent-set comparison says: every active agent announced. */
  lemma AgentSetExactly(base: Snapshot, roots: Roots, anns: seq<Announcement>, c: Ceremony)
    requires AllVerify(base, roots, anns, c) && NoTwice(anns) && UniqueAgents(base.agents)
    ensures SameAgents(Names(anns), base.agents) <==> forall id :: id in ActiveIds(base.agents) ==> id in Names(anns)
  {
    hide AnnouncementOk, AllVerify, UniqueAgents, SortIds, Names;
    ActiveIdsDistinct(base.agents);
    forall id | id in Names(anns)
      ensures id in ActiveIds(base.agents)
    {
      NamedIsActive(base, roots, anns, c, id);
    }
    if SameAgents(Names(anns), base.agents) {
      SameIds(Names(anns), ActiveIds(base.agents));
    } else if forall id :: id in ActiveIds(base.agents) ==> id in Names(anns) {
      SameMembersSameCounts(Names(anns), ActiveIds(base.agents));
      SortIdsForgetsOrder(Names(anns), ActiveIds(base.agents));
    }
  }

  lemma NamedIsActive(base: Snapshot, roots: Roots, anns: seq<Announcement>, c: Ceremony, id: string)
    requires AllVerify(base, roots, anns, c) && id in Names(anns)
    ensures id in ActiveIds(base.agents)
  {
    hide ValidDirectory, AuthorizedByCurrentKeys, SuccessorOk;
    var i :| 0 <= i < |anns| && Names(anns)[i] == id;
    assert anns[i] in anns;
    assert TermsOk(base, roots, anns[i], c);
    var agent := FindAgent(base.agents, id).value;
  }

  /** What a caller can check beforehand to know that composition succeeds. */
  ghost predicate Composable(base: Snapshot, roots: Roots, verified: map<string, Announcement>, issued: int, c: Ceremony) {
    && (forall id :: id in ActiveIds(base.agents) ==> id in verified)
    && AllEndAfter(base.agents, verified, c.activation)
    && c.activation + DEFAULT_DRAIN_MS < issued + ROTATION_VALIDITY_DAYS * MS_PER_DAY
    && Headroom(base, issued)
  }

  /** After collection and the agent-set check, the stage for the validity and hand-over results is set. */
  lemma CollectedReady(base: Snapshot, roots: Roots, anns: seq<Announcement>, c: Ceremony, verified: map<string, Announcement>)
    requires AllVerify(base, roots, anns, c) && anns != [] && Files(verified, anns)
    requires (forall id :: id in ActiveIds(base.agents) ==> id in verified) && AllEndAfter(base.agents, verified, c.activation)
    ensures Ready(base, roots, verified, c)
  {
    hide TermsOk, ValidDirectory, AllEndAfter;
    assert AnnouncementOk(base, roots, anns[0], c);
    forall i | 0 <= i < |base.agents| && base.agents[i].status.ActiveAgent?
      ensures base.agents[i].id in verified
    {
      assert base.agents[i] in base.agents;
    }
  }

  /** Collection of a good list, read through its dictionary. */
  lemma CollectedAs(base: Snapshot, roots: Roots, anns: seq<Announcement>, c: Ceremony, verified: map<string, Announcement>)
    requires AllVerify(base, roots, anns, c) && NoTwice(anns) && anns != [] && Files(verified, anns)
    ensures Collect(base, roots, anns, c).Some?
    ensures Collect(base, roots, anns, c).value.verified == verified
    ensures Collect(base, roots, anns, c).value.agents == Names(anns) != []
    ensures SameAgents(Names(anns), base.agents) <==> forall id :: id in ActiveIds(base.agents) ==> id in verified
    ensures forall id :: id in Names(anns) <==> id in verified
  {
    hide TermsOk, ValidDirectory, SortIds, UniqueAgents;
    CollectExactly(base, roots, anns, c);
    assert AnnouncementOk(base, roots, anns[0], c);
    BaseFacts(base, roots, c.now);
    AgentSetExactly(base, roots, anns, c);
    forall id ensures id in Names(anns) <==> id in verified {
      FilesNames(verified, anns, id);
    }
  }

  lemma LatestExactly(verified: map<string, Announcement>, agents: seq<string>, issued: int)
    requires agents != [] && (forall id :: id in agents <==> id in verified) && Latest(verified, issued)
    ensures LatestIssued(verified, agents) == issued
  {
  }

  lemma ExpiryOf(base: Snapshot, verified: map<string, Announcement>, issued: int, c: Ceremony)
    ensures Candidate(base, verified, issued, c.activation).expires == issued + ROTATION_VALIDITY_DAYS * MS_PER_DAY
  {
  }

  /** The outcome of composing a good list, with the final validation replaced by the question whether the numbers fit. */
  ghost function Verdict(base: Snapshot, roots: Roots, verified: map<string, Announcement>, ids: seq<string>, issued: int, c: Ceremony)
    : Result<Composition, Failure>
    requires forall id :: id in ids ==> id in verified
  {
    if ids != SortIds(ActiveIds(base.agents)) then Err(WrongAgentSet)
    else if !AllEndAfter(base.agents, verified, c.activation) then Err(ActivationTooLate)
    else if issued + ROTATION_VALIDITY_DAYS * MS_PER_DAY <= c.activation + DEFAULT_DRAIN_MS then Err(DrainTooShort)
    else if !Headroom(base, issued) then Err(InvalidCandidate)
    else
      var candidate := Candidate(base, verified, issued, c.activation);
      Ok(Composition(candidate, MakeReceipt(base, roots, candidate, verified, ids, c)))
  }

  lemma SortedNames(anns: seq<Announcement>, verified: map<string, Announcement>)
    requires forall id :: id in Names(anns) <==> id in verified
    ensures forall id :: id in SortIds(Names(anns)) ==> id in verified
  {
    SameIds(Names(anns), Names(anns));
  }

  /** On verified, unrepeated announcements composition computes exactly that verdict:
      the final validation fires only when a number no longer fits. */
  lemma ComposeVerdict(base: Snapshot, roots: Roots, anns: seq<Announcement>, c: Ceremony, verified: map<string, Announcement>, issued: int)
    requires AllVerify(base, roots, anns, c) && NoTwice(anns) && anns != []
    requires Files(verified, anns) && Latest(verified, issued)
    ensures forall id :: id in SortIds(Names(anns)) ==> id in verified
    ensures Compose(base, roots, anns, c) == Verdict(base, roots, verified, SortIds(Names(anns)), issued, c)
    ensures Compose(base, roots, anns, c).Ok? ==> Ready(base, roots, verified, c)
  {
    hide AllVerify, NoTwice, Files, Latest, Ready, Headroom, Candidate, ValidCandidate, AllEndAfter, SortIds, MakeReceipt, Collect, Names;
    CollectedAs(base, roots, anns, c, verified);
    SortedNames(anns, verified);
    LatestExactly(verified, Names(anns), issued);
    ExpiryOf(base, verified, issued, c);
    if SameAgents(Names(anns), base.agents) && AllEndAfter(base.agents, verified, c.activation) {
      CollectedReady(base, roots, anns, c, verified);
      if c.activation + DEFAULT_DRAIN_MS < issued + ROTATION_VALIDITY_DAYS * MS_PER_DAY {
        CandidateValid(base, roots, verified, issued, c);
      }
    }
  }

  /** Composition succeeds exactly on verified, unrepeated announcements of every active agent whose numbers fit,
      and then yields the candidate those announcements determine. */
  lemma ComposeExactly(base: Snapshot, roots: Roots, anns: seq<Announcement>, c: Ceremony, verified: map<string, Announcement>, issued: int)
    requires AllVerify(base, roots, anns, c) && NoTwice(anns) && anns != []
    requires Files(verified, anns) && Latest(verified, issued)
    ensures Compose(base, roots, anns, c).Ok? <==> Composable(base, roots, verified, issued, c)
    ensures Compose(base, roots, anns, c).Ok? ==>
      Compose(base, roots, anns, c).value.candidate == Candidate(base, verified, issued, c.activation) && Ready(base, roots, verified, c)
    ensures Compose(base, roots, anns, c) == Err(InvalidCandidate) ==> !Headroom(base, issued)
  {
    hide AllVerify, NoTwice, Files, Latest, Ready, Headroom, Candidate, AllEndAfter, SortIds, MakeReceipt, Compose, Names;
    ComposeVerdict(base, roots, anns, c, verified, issued);
    CollectedAs(base, roots, anns, c, verified);
  }

  lemma NoTwiceForgetsOrder(anns: seq<Announcement>, anns': seq<Announcement>)
    requires multiset(anns) == multiset(anns')
    ensures NoTwice(anns) <==> NoTwice(anns')
    ensures SortIds(Names(anns)) == SortIds(Names(anns'))
  {
    MapForgetsOrder((a: Announcement) => a.terms.agentId, anns, anns');
    MapForgetsOrder((a: Announcement) => a.terms.nonce, anns, anns');
    DistinctForgetsOrder(Names(anns), Names(anns'));
    DistinctForgetsOrder(Nonces(anns), Nonces(anns'));
    SortIdsForgetsOrder(Names(anns), Names(anns'));
  }

  lemma FilesForgetsOrder(verified: map<string, Announcement>, anns: seq<Announcement>, anns': seq<Announcement>)
    requires multiset(anns) == multiset(anns') && Files(verified, anns)
    ensures Files(verified, anns')
  {
    forall a ensures a in anns <==> a in anns' {
      InMultiset(a, anns, anns');
    }
  }

  /** Any permutation of the announcements and any two times at which all verify compose to the same result:
      the same candidate and receipt, or the same refusal. */
  lemma ComposeForgetsOrderAndTime(base: Snapshot, roots: Roots, anns: seq<Announcement>, anns': seq<Announcement>, c: Ceremony, c': Ceremony)
    requires multiset(anns) == multiset(anns') && c.id == c'.id && c.activation == c'.activation
    requires AllVerify(base, roots, anns, c) && AllVerify(base, roots, anns', c')
    ensures Compose(base, roots, anns, c) == Compose(base, roots, anns', c')
  {
    hide AllVerify, NoTwice, Files, Latest, Candidate, Headroom, AllEndAfter, SortIds, Compose, Collect, Names, Ready;
    SameLength(anns, anns');
    NoTwiceForgetsOrder(anns, anns');
    if anns == [] {
      assert anns' == [];
      ComposeNothing(base, roots, c);
      ComposeNothing(base, roots, c');
    } else if !NoTwice(anns) {
      ComposeTwice(base, roots, anns, c);
      ComposeTwice(base, roots, anns', c');
    } else {
      CollectExactly(base, roots, anns, c);
      var verified := Collect(base, roots, anns, c).value.verified;
      CollectedAs(base, roots, anns, c, verified);
      var issued := LatestIssued(verified, Names(anns));
      IsLatest(verified, Names(anns));
      FilesForgetsOrder(verified, anns, anns');
      ComposeVerdict(base, roots, anns, c, verified, issued);
      ComposeVerdict(base, roots, anns', c', verified, issued);
    }
  }

  lemma ComposeTwice(base: Snapshot, roots: Roots, anns: seq<Announcement>, c: Ceremony)
    requires !NoTwice(anns)
    ensures Compose(base, roots, anns, c) == Err(RejectedAnnouncement)
  {
    CollectExactly(base, roots, anns, c);
  }

  /** Without announcements the ceremony stops: at the agent set, or at the missing latest issuance. */
  lemma ComposeNothing(base: Snapshot, roots: Roots, c: Ceremony)
    ensures Compose(base, roots, [], c) ==
      if SortIds([]) != SortIds(ActiveIds(base.agents)) then Err(WrongAgentSet) else Err(NoActiveAgent)
  {
    assert Collect(base, roots, [], c) == Some(Collected([], map[], {}));
    assert AllEndAfter(base.agents, map[], c.activation);
  }

  lemma IsLatest(verified: map<string, Announcement>, agents: seq<string>)
    requires agents != [] && forall id :: id in agents <==> id in verified
    ensures Latest(verified, LatestIssued(verified, agents))
  {
  }
}
