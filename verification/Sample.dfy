/** A sender, a receiver and the signed directory both are in, for results that need a concrete run. */
module Sample {
  import opened Wrappers
  import opened Text
  import opened Sorting
  import opened Directory
  import opened Protocol
  import opened DirectoryContext
  import opened RotationTraffic
  import opened Broker

  const T0 := 1_000_000_000_000
  const DAY := 86_400_000

  /** A version 7 identifier whose timestamp lies ten minutes after T0. */
  const MESSAGE_ID := Uuid("00e8d4ae-37c0-7000-8000-000000000000", Some(1208926544970649857753134260824309760))

  const FIRST_LEASE := Uuid("00000000-0000-4000-8000-000000000000", Some(302240678275694148452352))
  const SECOND_LEASE := Uuid("00000000-0000-4000-8000-000000000001", Some(302240678275694148452353))

  const KEY := MessageKey("a", MESSAGE_ID)

  function Filled(n: nat, byte: int): (r: Bytes)
    ensures |r| == n && (n > 0 ==> r[0] == byte)
  {
    seq(n, i => byte)
  }

  // ---- the directory ----

  const ROOT_KEY := Filled(32, 9)
  const ROOTS := Roots(1, map["g" := ROOT_KEY])

  function KeyFrom(kid: string, byte: int, start: int): Key {
    Key(kid, 1, Filled(32, byte), Active, start, None)
  }

  const SENDER := Agent("a", ActiveAgent, [KeyFrom("as", 1, 0)], [KeyFrom("ae", 2, 0)])

  /** The receiver, whose encryption key starts at the given time. */
  function Receiver(start: int): Agent {
    Agent("b", ActiveAgent, [KeyFrom("bs", 3, 0)], [KeyFrom("be", 4, start)])
  }

  const AUDIENCE := Audience(AudienceKey(AudienceName(Direct, "b"), 1), ActiveAudience, ["b"], ["a"], None)

  function Unsealed(start: int): Snapshot {
    Snapshot(1, T0, T0 + 40 * DAY, None, [SENDER, Receiver(start)], [AUDIENCE], 1, [])
  }

  function Sealed(start: int): Snapshot {
    Unsealed(start).(signatures := [GovernanceSignature("g", "Ed25519", Ed25519(ROOT_KEY, Unsealed(start), 0))])
  }

  lemma NamesAreFine()
    ensures IsIdentifier("a") && IsIdentifier("b") && IsIdentifier("g")
    ensures IsIdentifier("as") && IsIdentifier("ae") && IsIdentifier("bs") && IsIdentifier("be")
  {
  }

  lemma AgentsAreFine(start: int)
    requires 0 <= start <= MAX_INTEGER
    ensures EachAgentOk([SENDER, Receiver(start)]) && UniqueAgents([SENDER, Receiver(start)])
    ensures AudienceOk(AUDIENCE, AgentIds([SENDER, Receiver(start)]))
  {
    NamesAreFine();
    hide IsIdentifier;
    var agents := [SENDER, Receiver(start)];
    assert AgentOk(agents[0]) && AgentOk(agents[1]);
    assert agents[0].id in AgentIds(agents) && agents[1].id in AgentIds(agents);
  }

  lemma KidsAreUnique(start: int)
    ensures UniqueKids([SENDER, Receiver(start)])
  {
    var agents := [SENDER, Receiver(start)];
    assert "as"[0] == 'a' && "ae"[0] == 'a' && "bs"[0] == 'b' && "be"[0] == 'b';
    assert "as"[1] == 's' && "ae"[1] == 'e' && "bs"[1] == 's' && "be"[1] == 'e';
    forall i, p, j | HasSlot(agents, i, p, j)
      ensures j == 0 && |KeyAt(agents, i, p, j).kid| == 2
      ensures KeyAt(agents, i, p, j).kid[0] == (if i == 0 then 'a' else 'b')
      ensures KeyAt(agents, i, p, j).kid[1] == (if p.Signing? then 's' else 'e')
    {
    }
  }

  /** Governance signed it, and it is runtime authority for forty days. */
  lemma SealedIsValid(start: int, now: int)
    requires 0 <= start <= MAX_INTEGER && T0 - MAX_CLOCK_SKEW_MS <= now < T0 + 40 * DAY
    ensures ValidDirectory(Sealed(start), ROOTS, now)
  {
    NamesAreFine();
    AgentsAreFine(start);
    KidsAreUnique(start);
    assert Unsigned(Sealed(start)) == Unsealed(start);
    hide EachAgentOk, UniqueAgents, UniqueKids, AudienceOk, IsIdentifier, AgentIds;
  }

  // ---- what the validators are given ----

  lemma KeysAreFiled(start: int)
    ensures var s := Sealed(start);
      && "as" in KeyTable(s.agents, Signing) && KeyTable(s.agents, Signing)["as"] == OwnedKey("a", KeyFrom("as", 1, 0))
      && "bs" in KeyTable(s.agents, Signing) && KeyTable(s.agents, Signing)["bs"] == OwnedKey("b", KeyFrom("bs", 3, 0))
      && "be" in KeyTable(s.agents, Encryption) && KeyTable(s.agents, Encryption)["be"] == OwnedKey("b", KeyFrom("be", 4, start))
  {
    var agents := Sealed(start).agents;
    KidsAreUnique(start);
    assert HasSlot(agents, 0, Signing, 0) && KeyAt(agents, 0, Signing, 0).kid == "as";
    assert HasSlot(agents, 1, Signing, 0) && KeyAt(agents, 1, Signing, 0).kid == "bs";
    assert HasSlot(agents, 1, Encryption, 0) && KeyAt(agents, 1, Encryption, 0).kid == "be";
    KeyTableMeaning(agents, Signing, "as");
    KeyTableMeaning(agents, Signing, "bs");
    KeyTableMeaning(agents, Encryption, "be");
    hide UniqueKids, KeyTable;
  }

  lemma AudienceIsFiled(start: int)
    ensures var table := AudienceTable(Sealed(start).audiences); table == map[AUDIENCE.key := AUDIENCE]
  {
    var audiences := Sealed(start).audiences;
    assert audiences[..0] == [];
    assert AudienceTable(audiences[..0]) == map[];
  }

  /** The context the broker uses for the sender. */
  function SendContext(start: int, now: int): Context {
    ContextOf(Sealed(start), Some("a"), None, now, {})
  }

  lemma SendContextHolds(start: int, now: int)
    ensures var c := SendContext(start, now);
      && c.now == now && c.seen == {} && AUDIENCE.key in c.authorized
      && AUDIENCE.key in c.members && c.members[AUDIENCE.key] == ["b"]
  {
    AudienceIsFiled(start);
    hide KeyTable, AudienceTable;
    assert AUDIENCE.allowedSenders[0] == "a";
  }

  function ReceiveContext(start: int, now: int): Context {
    ContextOf(Sealed(start), None, Some("b"), now, {})
  }

  lemma ReceiveContextHolds(start: int, now: int)
    ensures var c := ReceiveContext(start, now);
      && c.now == now && c.seen == {} && AUDIENCE.key in c.receiverAudiences
      && AUDIENCE.key in c.members && c.members[AUDIENCE.key] == ["b"]
  {
    AudienceIsFiled(start);
    hide KeyTable, AudienceTable;
    assert AUDIENCE.Recipients()[0] == "b";
  }

  // ---- envelopes from the sender to the receiver ----

  const WRAP := Recipient("b", "be", Filled(32, 5), Filled(48, 6))

  function BodyAt(issued: int, expires: int): Body {
    Body(PROTOCOL, VERSION, SUITE, MESSAGE_ID, issued, expires, "a", "as", AUDIENCE.key, "text/plain", Filled(12, 7), Filled(16, 8), [WRAP])
  }

  function EnvelopeAt(issued: int, expires: int): Envelope {
    Envelope(BodyAt(issued, expires), "Ed25519", "as", Ed25519(Filled(32, 1), BodyAt(issued, expires), 0))
  }

  lemma MessageIdIsWellFormed()
    ensures MESSAGE_ID.HasVersion(7) && MESSAGE_ID.Timestamp() == T0 + 600_000
  {
    assert 1208926544970649857753134260824309760 / 75557863725914323419136 == 16000009600007;
    assert 1208926544970649857753134260824309760 / 4611686018427387904 == 262144157286514690;
    assert 1208926544970649857753134260824309760 / 1208925819614629174706176 == 1000000600000;
  }

  lemma LeasesAreWellFormed()
    ensures FIRST_LEASE.HasVersion(4) && SECOND_LEASE.HasVersion(4)
  {
    assert 302240678275694148452352 / 75557863725914323419136 == 302240678275694148452353 / 75557863725914323419136 == 4;
    assert 302240678275694148452352 / 4611686018427387904 == 302240678275694148452353 / 4611686018427387904 == 65538;
  }

  lemma IdsAreWellFormed()
    ensures MESSAGE_ID.HasVersion(7) && MESSAGE_ID.Timestamp() == T0 + 600_000
    ensures FIRST_LEASE.HasVersion(4) && SECOND_LEASE.HasVersion(4) && FIRST_LEASE != SECOND_LEASE
  {
    MessageIdIsWellFormed();
    LeasesAreWellFormed();
    assert FIRST_LEASE.bits != SECOND_LEASE.bits;
  }

  lemma MediaTypeIsFine()
    ensures IsContentType("text/plain")
  {
    var s := "text/plain";
    assert s[4] == '/' && s[..4] == "text" && s[4..][1..] == "plain";
    assert IsToken("text") && IsToken("plain");
  }

  lemma StructureIsFine(issued: int, expires: int)
    requires T0 + 300_000 <= issued <= T0 + 900_000 && issued < expires <= issued + MAX_TTL_MS
    ensures StructureError(EnvelopeAt(issued, expires)).None?
    ensures RecipientIds([WRAP]) == {"b"} && WrapsFor([WRAP], "b") == [WRAP]
  {
    IdsAreWellFormed();
    NamesAreFine();
    MediaTypeIsFine();
    hide IsIdentifier, IsContentType;
    var recipients := [WRAP];
    assert recipients[..0] == [];
    assert RecipientOk(recipients[0]);
    assert RecipientsError(recipients).None?;
    assert recipients[0].id in RecipientIds(recipients);
    OneWrap(recipients, 0);
  }

  lemma OneName()
    ensures NameSet(["b"]) == {"b"}
  {
    var names := ["b"];
    assert names[0] in NameSet(names);
  }

  /** The broker admits such an envelope while it lives, once the wrap key has started. */
  lemma IsAdmitted(start: int, issued: int, expires: int, now: int)
    requires T0 + 300_000 <= issued <= T0 + 900_000 && issued < expires <= issued + MAX_TTL_MS
    requires 0 <= start <= now < expires && T0 <= now && issued <= now + MAX_CLOCK_SKEW_MS
    ensures Admits(EnvelopeAt(issued, expires), SendContext(start, now))
  {
    StructureIsFine(issued, expires);
    KeysAreFiled(start);
    SendContextHolds(start, now);
    OneName();
    hide StructureError, KeyTable, RecipientIds, NameSet;
    AdmitsExactly(EnvelopeAt(issued, expires), SendContext(start, now));
  }

  /** The receiver accepts it while it lives, exactly when the wrap key had started at issuance. */
  lemma IsReceivedExactly(start: int, issued: int, expires: int, now: int)
    requires T0 + 300_000 <= issued <= T0 + 900_000 && issued < expires <= issued + MAX_TTL_MS
    requires now < expires && issued <= now + MAX_CLOCK_SKEW_MS
    ensures Receives(EnvelopeAt(issued, expires), ReceiveContext(start, now)) <==> start <= issued
  {
    StructureIsFine(issued, expires);
    KeysAreFiled(start);
    ReceiveContextHolds(start, now);
    OneName();
    IsGenuine(start, issued, expires, now);
    hide StructureError, SignerError, TimeError, Receives, KeyTable, RecipientIds, NameSet, ContextOf, EnvelopeAt;
    HasBody(issued, expires);
    var e, c := EnvelopeAt(issued, expires), ReceiveContext(start, now);
    assert Distinct(c.members[AUDIENCE.key]);
    ReceivesMeans(e, c, WRAP);
  }

  lemma HasBody(issued: int, expires: int)
    ensures EnvelopeAt(issued, expires).body == BodyAt(issued, expires)
  {
  }

  lemma IsGenuine(start: int, issued: int, expires: int, now: int)
    requires 0 <= issued <= now + MAX_CLOCK_SKEW_MS && now < expires
    ensures SignerError(EnvelopeAt(issued, expires), ReceiveContext(start, now)).None?
    ensures TimeError(EnvelopeAt(issued, expires), ReceiveContext(start, now)).None?
    ensures ReceiveContext(start, now).receiver == Some("b")
    ensures ReceiveContext(start, now).encryptionKeys == KeyTable(Sealed(start).agents, Encryption)
  {
    KeysAreFiled(start);
    ReceiveContextHolds(start, now);
    hide KeyTable;
  }

  /**
   * Admission does not imply receipt: under one valid directory the broker admits an envelope
   * that its receiver rejects for ever, because the wrap key started after the envelope was issued.
   */
  lemma AdmittedButNeverReceived(later: int)
    requires T0 + 400_000 <= later < T0 + DAY
    ensures var e := EnvelopeAt(T0 + 300_000, T0 + DAY);
      && ValidDirectory(Sealed(T0 + 400_000), ROOTS, T0 + 400_000)
      && Admits(e, SendContext(T0 + 400_000, T0 + 400_000))
      && !Receives(e, ReceiveContext(T0 + 400_000, later))
  {
    hide ValidDirectory, Admits, Receives;
    SealedIsValid(T0 + 400_000, T0 + 400_000);
    IsAdmitted(T0 + 400_000, T0 + 300_000, T0 + DAY, T0 + 400_000);
    IsReceivedExactly(T0 + 400_000, T0 + 300_000, T0 + DAY, later);
  }
}
