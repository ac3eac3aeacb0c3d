# Verified model of a federated message carrier

Agents exchange signed, end-to-end encrypted envelopes through brokers they need not trust with contents. A signed
directory lists agents, their key windows and audiences; governance replaces it epoch by epoch. This project models the
stateful parts of that system in Dafny and proves what they keep over every run.

Modelling conventions, used throughout:

- SHA-256 over canonical JSON is an injective constructor: `Sha256(x)` is the digest of `x`, `Foreign(text)` is a text no
  known document hashes to. An Ed25519 signature names the key and the message it was made with, plus a variant, because
  one message may have several valid encodings of its signature.
- A UUID is its text together with the 128-bit value it parses to; version and timestamp are read from that value as
  section 5.7 of RFC 9562 lays them out.
- Clocks, random draws, lease IDs and network answers are parameters. Where a theorem needs a clock that only rises, or
  lease IDs that never repeat, its precondition says so.
- A database transaction is one step: it commits what its specification function says, or leaves every table as it was.
- Where the source changes state step by step (the broker, the inbox, the provisioning target, the mirror cursor, the
  directory state file), the model has a class whose methods have the same loops and branches; each method is proved equal
  to a function on values, and the theorems are about runs of that function.
- What such a function answers is stated a second time without it, in terms of what it is given: when exactly it succeeds, what
  each column or field of its result is, and what it leaves alone (`Acceptance`, `Announcing`, `Succession`, `DeliveryLaws`,
  `OutboxLaws`, `PackageLaws` and the last sections of `Inbox`, `Sender`, `Service` and `MirrorProgress`).

Modules, from the bottom up:

| topic | modules |
|---|---|
| text, sorting, options | `Text`, `Sorting`, `Wrappers` |
| directory, its validator and loads | `Directory`, `DirectoryContext`, `DirectoryStore` |
| envelope validation | `Protocol` |
| what the validators of directories, envelopes and requests accept, in plain terms | `Acceptance` |
| key rotation | `Rotation`, `RotationValidity`, `RotationOrder`, `RotationTraffic`, `RotationPrepare`, `Announcing` |
| forward recovery | `Recovery`, `RecoveryProofs` |
| what both make of their base | `Succession` |
| a small instance of both, with their successes and failures | `WorkedExample` |
| broker | `Broker`, `BrokerStore`, `BrokerRuns`, `BrokerFacts`, `DeliveryLaws`, `OutboxLaws`, `DeliveryMeasure`, `OutboxMeasure`, `Leases`, `Admission`, `RetentionExact`, `Requests` |
| HTTP service | `Transport`, `Service`, `ServiceThreads` |
| provisioning | `Provisioning`, `ProvisioningRuns`, `PackageLaws`, `OvertakenWrite` |
| clients and the whole network | `Inbox`, `Sender`, `RoundTrip`, `Network`, `EndToEnd`, `LateFinish`, `LateWorker`, `LostSuccess` |
| two agents, their directory and envelopes for concrete runs | `Sample` |
| Telegram mirror | `Rendering`, `MirrorProgress` |
| claim log | `Coordination` |

Where a plain statement is not what the code does, the model keeps the code, gives an input or a run that shows it, and
states the exact condition:

- A composed candidate is valid if and only if its directory epoch and its expiry stay below 2^53
  (`RotationValidity.CandidateValid`); the same holds for the numbers of forward recovery (`RecoveryProofs.RecoveryValid`).
  At the last representable epoch both fail (`WorkedExample.RotationRunsOutOfEpochs`, `WorkedExample.RecoveryRunsOutOfEpochs`).
- An envelope the broker admitted is received by an endpoint only if it was issued inside its wrap key's window, and
  before the activation when its keys were replaced (`RotationTraffic.AdmittedTrafficReceived`). Admission alone does not
  give this: under one valid directory an envelope is admitted and rejected by its receiver for ever
  (`Sample.AdmittedButNeverReceived`).
- Announcement preparation does not check the length of the key IDs it forms (`RotationPrepare.PreparedVerifies`); for a
  128-character agent ID it succeeds and the result never verifies (`WorkedExample.LongNameNeverVerifies`).
- A message is admitted as new at most once for ever if and only if purges keep at least the longest lifetime plus three
  clock skews, less one millisecond; for identical bytes one skew suffices (`RetentionExact`). One millisecond less is
  refuted by a concrete run whose contexts and keys come from one valid directory (`RetentionExact.RunsAreServed`).
- The inbox overwrites whatever state it finds when a worker finishes. A finish yields a payload again if and only if its
  message has been yielded, which are the processed rows: the check that finishing omits (`LateFinish.RepeatsExactly`). With
  that check no run yields twice (`EndToEnd.YieldedOnce`), and runs in which no worker resumes after its takeover pass it
  (`LateFinish.TimelyIsGuarded`). A concrete run without it yields one message twice (`LateWorker.LateFinishRepeats`).
- For the same reason an acknowledged delivery need not have a processed row: a late worker that cannot store turns the row
  into a failed one (`LostSuccess.AcknowledgedButFailed`). Every acknowledged delivery is backed in all runs in which each
  finish of a processed row opens it again (`EndToEnd.AcknowledgedIsProcessed`). Where no process ends between a finish
  and its reports, these are exactly the runs that keep every signed success backed throughout
  (`LateFinish.AlwaysBackedExactly`); `LateFinish.BackedExactly` gives the condition for one finish after any such run.
- Provisioning writes the directory state file without taking the lock under which clients compare and write it. The
  state's epoch never falls if and only if no client's decided write is overtaken by a later state
  (`ProvisioningRuns.StateNeverFalls`); a stalled client can take it back behind two completed installations
  (`OvertakenWrite.StateFallsBack`). Writing the state only while no client holds that lock suffices
  (`ProvisioningRuns.LockingIsTimely`).

## Model

| member | source | states |
|---|---|---|
| Directory.ValidateKeys | src/tribe_directory_v1.py:276-302 | the key loop accepts exactly non-empty lists of well-formed keys with distinct epochs and IDs not seen before, and adds exactly their IDs to the seen set |
| Directory.ValidateAgents | src/tribe_directory_v1.py:263-302 | the agent loop accepts exactly well-formed agents with distinct IDs and globally unique key IDs |
| Directory.ValidateAudiences | src/tribe_directory_v1.py:304-366 | the audience loop accepts exactly audiences with unique keys, known members and allowed recipient lists |
| Directory.ValidateSignatures | src/tribe_directory_v1.py:237-261 | the signature loop accepts exactly distinct governance signers whose signatures cover the unsigned directory, and counts them |
| Directory.Validate | src/tribe_directory_v1.py:200-402 | a directory, or unsigned candidate, is accepted if and only if every header, signature, agent, key and audience rule holds |
| Acceptance.DirectoryExactly | src/tribe_directory_v1.py:200-402 | validity if and only if, in plain numbers and entries: time between one skew before issuance and expiry, a quorum of distinct governance signatures over the content, all key IDs distinct, epochs distinct per purpose, and every audience fitting the agents |
| Acceptance.ValidWhile | src/tribe_directory_v1.py:200-236 | a directory once valid is valid at exactly the other times from one skew before its issuance to its expiry |
| Acceptance.SignatureFixesDirectory | src/tribe_directory_v1.py:237-261 | two valid directories that share one governance signature have the same content |
| Acceptance.RootsExactly | src/tribe_directory_v1.py:185-198 | roots are accepted if and only if the threshold is at least one and well-formed keys reach it |
| Directory.BestKey | src/tribe_directory_v1.py:549-570 | key selection finds a usable key whenever one exists, and none of a higher epoch is usable |
| Acceptance.SelectsExactly | src/tribe_directory_v1.py:549-570 | the key selected for an agent is exactly its newest key in use, and only active agents have one |
| Directory.FindAudience | src/tribe_directory_v1.py:531-547 | audience selection finds the active epoch that no other active epoch exceeds |
| DirectoryContext.KeyTableMeaning | src/tribe_directory_v1.py:429-451 | the lookup table holds exactly the directory's keys, each under its owner |
| DirectoryContext.AudienceTableMeaning | src/tribe_directory_v1.py:429-451 | the audience table holds exactly the directory's audiences |
| DirectoryContext.BuildContext | src/tribe_directory_v1.py:572-612 | the loop fills authorized, readable and member tables exactly by status, sender and recipient |
| Acceptance.ContextSays | src/tribe_directory_v1.py:572-612 | who may address an audience, who may read it and whom it reaches, in terms of the directory's entries, both ways |
| DirectoryStore.Store.Load | src/tribe_directory_v1.py:453-529 | one load accepts or refuses by the anti-rollback rules and changes the state file only on acceptance |
| Acceptance.LoadsExactly | src/tribe_directory_v1.py:453-529 | a client that holds a directory accepts exactly it and its valid, hash-linked direct successors under the same roots, and then holds what it accepted |
| Acceptance.LoadRefusedBecause | src/tribe_directory_v1.py:474-526 | a valid directory is refused as other roots, rollback, split view or discontinuity, each if and only if it is that |
| Acceptance.FirstLoadsExactly | src/tribe_directory_v1.py:453-529 | a client that holds nothing accepts exactly valid directories without predecessor |
| DirectoryStore.HeadsChain | src/tribe_directory_v1.py:474-526 | over any loads of any files the accepted heads form one hash-linked chain, starting without predecessor |
| DirectoryStore.NoRollback | src/tribe_directory_v1.py:474-526 | accepted epochs never fall, roots never change, one epoch never shows two directories |
| DirectoryStore.SameHeadSameHistory | src/tribe_directory_v1.py:474-526 | two clients that ever hold the same directory have identical accepted histories |
| DirectoryStore.ForksNeverRejoin | src/tribe_directory_v1.py:474-526 | clients that accepted different directories at one place never hold the same one again |
| Protocol.CheckRecipients | src/tribe_protocol_v1.py:291-301 | the recipient loop reports the first complaint entry by entry and otherwise collects exactly the recipient IDs |
| Protocol.RecipientsError | src/tribe_protocol_v1.py:291-301 | no complaint if and only if recipients are unique and every entry is well formed |
| Protocol.ValidateStructure | src/tribe_protocol_v1.py:243-320 | the structural parser reports exactly the first failed rule on times, UUIDv7, recipients and fields |
| Acceptance.FormedExactly | src/tribe_protocol_v1.py:243-320 | the well-formed envelopes, with all limits in numbers, if and only if |
| Acceptance.UuidFields | src/tribe_protocol_v1.py:229-241 | version, variant and timestamp are read from the fields of the 128-bit value |
| Acceptance.ContentTypeExactly | src/tribe_protocol_v1.py:270-278 | a media type is two tokens around a slash, the second of at most 127 characters, if and only if |
| Acceptance.FormComplaint | src/tribe_protocol_v1.py:243-320 | every structural complaint is true of the envelope |
| Protocol.OneWrap | src/tribe_protocol_v1.py:474-488 | with unique recipients each one finds exactly its own wrapped key |
| Protocol.AdmitsExactly | src/tribe_protocol_v1.py:401-441 | admission holds if and only if the envelope is well formed, genuine, unexpired and unseen, its signer active at issuance and now, and it addresses exactly the members of an allowed audience under wrap keys active now |
| Acceptance.WrapsExactly | src/tribe_protocol_v1.py:383-441 | every wrap key is its recipient's, active and in force at admission |
| Acceptance.BrokerComplaint | src/tribe_protocol_v1.py:401-441 | every complaint of broker admission is true of envelope and context |
| Acceptance.EndpointComplaint | src/tribe_protocol_v1.py:444-489 | every complaint of endpoint receive is true of envelope and context |
| Acceptance.ReceivesExactly | src/tribe_protocol_v1.py:444-489 | an endpoint receives exactly unexpired, unseen envelopes genuine at issuance, for exactly the members of an audience it reads, with its own wrap under a key in force at issuance |
| Acceptance.OpensExactly | src/tribe_client_v1.py:493-503 | a receiver opens an envelope if and only if, by its directory's entries, the sender's key was in force at issuance, the envelope is for all of an audience it belongs to and wrapped to a key of its own, and its keys decrypt it |
| Text.KeyIdInjective | src/tribe_rotation_v1.py:296-321 | a key ID determines agent, purpose and epoch |
| Text.AudienceTextInjective | src/tribe_protocol_v1.py:378-380 | an audience key determines kind, ID and epoch |
| Rotation.VerifyAnnouncement | src/tribe_rotation_v1.py:245-332 | an announcement verifies if and only if it binds base, roots, ceremony and times, names the selected keys, announces the next epochs, still representable, under their IDs, and carries both signatures |
| Announcing.VerifiesExactly | src/tribe_rotation_v1.py:245-332 | an announcement verifies if and only if an active agent of the valid base made it in time for this ceremony, signed with its selected key, for keys one epoch above all of theirs under unused IDs |
| Announcing.BindsOneCeremony | src/tribe_rotation_v1.py:245-332 | an announcement verifies for one base, one set of roots, one ceremony and one activation only |
| Announcing.VerifiesWhile | src/tribe_rotation_v1.py:245-332 | once verified, it verifies at exactly the other times between its issuance, less one skew, and its expiry |
| Rotation.CollectAnnouncements | src/tribe_rotation_v1.py:348-363 | the collection loop gives exactly the verified map, agent list and nonce set, or rejects |
| Rotation.RotateKeys | src/tribe_rotation_v1.py:418-449 | the inner loop ends the named key at the activation at the latest, leaves the others, and appends the announced key |
| Rotation.RotateEveryAgent | src/tribe_rotation_v1.py:414-449 | the in-place rewrite cuts exactly the named previous keys and appends the announced ones |
| Rotation.ComposeRotation | src/tribe_rotation_v1.py:335-497 | the whole composition with its checks in order, equal to its specification |
| Announcing.ComposesWhen | src/tribe_rotation_v1.py:335-463 | composition succeeds if and only if, in terms of base and announcements alone, all verify without repetition, every active agent announced, no replaced key ends before the activation, and the latest issuance leaves more than the drain |
| Succession.ComposedHeader | src/tribe_rotation_v1.py:394-413 | the composed successor's header: next epoch, hash of the base, latest issuance, thirty days, audiences and threshold carried over |
| Succession.ComposedAgents | src/tribe_rotation_v1.py:414-449 | exactly the active agents are handed over, each by its own announcement: old keys keep their places, the named ones end at the activation, the announced ones come last; the others stay |
| Succession.ComposedLoads | src/tribe_rotation_v1.py:394-413 | once signed, the composed successor is accepted by exactly the clients that hold its base, and becomes their state |
| Succession.UntilActivation | src/tribe_rotation_v1.py:414-449 | until the activation every agent's selected keys are those of the base |
| Succession.ReceiptMeans | src/tribe_rotation_v1.py:464-497 | the receipt names ceremony, activation, base, roots and candidate by number and hash |
| Succession.ReceiptLists | src/tribe_rotation_v1.py:464-497 | the receipt lists every announcing agent once, in order, each with its announcement |
| Succession.DigestDecides | src/tribe_rotation_v1.py:464-497 | two ceremonies with one digest composed the same candidate with the same receipt |
| WorkedExample.RotationHappens | src/tribe_rotation_v1.py:134-497 | a concrete directory, its prepared announcement and a successful composition: the premises of the rotation results can be met |
| WorkedExample.RotationRunsOutOfEpochs | src/tribe_rotation_v1.py:394-463 | a valid base at epoch 2^53-1 whose ceremony meets every other condition is refused at the final validation |
| WorkedExample.RecoveryHappens | src/tribe_rotation_v1.py:500-645 | a concrete directory with two compromised keys whose recovery succeeds |
| WorkedExample.RecoveryRunsOutOfEpochs | src/tribe_rotation_v1.py:555-645 | a valid base at epoch 2^53-1 whose recovery meets every other condition is refused for its numbers |
| RotationPrepare.PreparedVerifies | src/tribe_rotation_v1.py:134-242 | what an agent prepares verifies during its whole life if and only if both new key IDs are identifiers |
| RotationPrepare.PreparesExactly | src/tribe_rotation_v1.py:134-242 | preparation succeeds if and only if the base is valid, both keys are selected, the signing key is the caller's, the times fit, and the next epochs and their key IDs are free |
| RotationPrepare.PreparedCarries | src/tribe_rotation_v1.py:134-242 | what is prepared carries the caller's ceremony and times and exactly the keys and nonce drawn |
| WorkedExample.LongNameNeverVerifies | src/tribe_rotation_v1.py:134-332 | under a valid base an agent with a 128-character ID prepares an announcement that verifies at no time of its life |
| RotationPrepare.LongIdKeyIdRejected | src/tribe_rotation_v1.py:296-321 | an agent ID of 128 characters yields key IDs that are never identifiers |
| RotationValidity.RotatedUnique | src/tribe_rotation_v1.py:414-449 | key IDs stay globally unique across all agents and purposes |
| RotationValidity.CandidateValid | src/tribe_rotation_v1.py:394-463 | the candidate satisfies every validator rule if and only if its directory epoch and expiry are representable |
| RotationValidity.NothingWidened | src/tribe_rotation_v1.py:414-449 | every old key keeps ID, epoch, material and status, and its window never grows |
| RotationValidity.NoGap | src/tribe_rotation_v1.py:414-449 | each active agent has a selected key at every instant from announcement to expiry, exactly the announced one from activation on |
| RotationOrder.CollectExactly | src/tribe_rotation_v1.py:348-363 | collection accepts exactly lists whose members all verify and never repeat an agent or nonce |
| RotationOrder.AgentSetExactly | src/tribe_rotation_v1.py:345-365 | the agent-set check says exactly that every active agent announced |
| RotationOrder.ComposeVerdict | src/tribe_rotation_v1.py:364-497 | on verified announcements the result, success or each refusal, is a function of base, announcements and ceremony |
| RotationOrder.ComposeExactly | src/tribe_rotation_v1.py:364-463 | composition succeeds exactly when every active agent announced, old windows reach the activation and numbers fit; the final check fires only for numbers |
| RotationOrder.ComposeForgetsOrderAndTime | src/tribe_rotation_v1.py:345-497 | any permutation and any two verification times give the same candidate and receipt, or the same refusal |
| RotationOrder.ComposeTwice | src/tribe_rotation_v1.py:348-363 | a repeated agent or nonce is always rejected |
| RotationOrder.ComposeNothing | src/tribe_rotation_v1.py:364-402 | without announcements the ceremony stops before a candidate exists |
| RotationTraffic.KeysSurvive | src/tribe_rotation_v1.py:414-449 | every base key is still known after rotation, with its window cut at the activation if and only if it was replaced |
| RotationTraffic.ReplacedKeysAreFenced | src/tribe_protocol_v1.py:401-441 | from the activation on the broker rejects every envelope signed by or wrapped to a replaced key, however its issuance is backdated |
| RotationTraffic.AdmittedTrafficReceived | src/tribe_protocol_v1.py:444-489 | an admitted envelope is received under the successor at every later time before expiry, exactly under the stated issuance conditions |
| Sample.AdmittedButNeverReceived | src/tribe_protocol_v1.py:401-489 | a concrete envelope under a valid directory that the broker admits and its receiver rejects at every later time |
| Sample.IsReceivedExactly | src/tribe_protocol_v1.py:444-489 | the receiver of the sample envelope accepts it while it lives if and only if its wrap key had started at issuance |
| Recovery.RevokeEveryAgent | src/tribe_rotation_v1.py:570-587 | the loop revokes exactly keys named or sharing compromised material of their purpose |
| Recovery.RevokeInPlace | src/tribe_rotation_v1.py:572-587 | the key loop revokes in place, closing a window only where it had begun |
| Recovery.RetireInPlace | src/tribe_rotation_v1.py:606-613 | the retiring loop makes every active epoch of an affected name inactive and nothing else |
| Recovery.ScanAffected | src/tribe_rotation_v1.py:588-601 | the scan finds exactly the active audiences an owner of compromised encryption material can read |
| Recovery.RecoverAudiences | src/tribe_rotation_v1.py:588-622 | affected epochs are retired in place and one successor per affected name is appended |
| Recovery.BuildForwardRecovery | src/tribe_rotation_v1.py:500-645 | the whole recovery with its checks in order, equal to its specification |
| Succession.RecoversWhen | src/tribe_rotation_v1.py:500-645 | recovery succeeds if and only if, in terms of the base alone, it is valid, some existing keys are named, validity is positive, every agent has a sound key outliving the successor for each purpose, and the numbers fit |
| Succession.RecoveredHeader | src/tribe_rotation_v1.py:555-569 | the recovered successor's header: next epoch, hash of the base, issued now, expiring after the requested days or with the base, whichever is earlier |
| Succession.RecoveredLoads | src/tribe_rotation_v1.py:555-569 | once signed, the recovered successor is accepted by exactly the clients that hold its base, and becomes their state |
| RecoveryProofs.RecoverExactly | src/tribe_rotation_v1.py:500-645 | recovery succeeds exactly on a valid base with known keys, remaining validity, sound cover for every agent and numbers that fit |
| RecoveryProofs.RecoveryValid | src/tribe_rotation_v1.py:555-645 | the recovered directory satisfies every validator rule if and only if its numbers fit |
| RecoveryProofs.RevokedExactly | src/tribe_rotation_v1.py:540-587 | every key of compromised material, aliases included, is revoked; every other key is untouched; no window grows |
| RecoveryProofs.MaterialMeaning | src/tribe_rotation_v1.py:540-546 | compromised material is exactly what the named keys of that purpose hold |
| RecoveryProofs.OwnersMeaning | src/tribe_rotation_v1.py:549-554 | compromised owners are exactly the holders of that material under any key ID |
| RecoveryProofs.SoundKeyAlways | src/tribe_rotation_v1.py:623-639 | every active agent has a selected, uncompromised key at every instant of the candidate's life |
| RecoveryProofs.AffectedAudience | src/tribe_rotation_v1.py:588-622 | an affected audience keeps no active old epoch and gets one active successor above all, with the copied policy |
| RecoveryProofs.UnaffectedAudience | src/tribe_rotation_v1.py:588-622 | every other audience stays as it was |
| BrokerStore.SQLiteBroker.ObserveTrustedTime | src/tribe_broker_v1.py:467-507 | trusted time moves to the observed time or the call fails on rollback |
| BrokerStore.SQLiteBroker.RecordAuthenticatedRequest | src/tribe_broker_v1.py:509-538 | prune, then record, or roll back as a replay |
| DeliveryLaws.RecordAnswer | src/tribe_broker_v1.py:509-538 | a request is recorded if and only if time has not fallen and no unexpired record of it stands; exactly the expired records go |
| BrokerStore.SQLiteBroker.EnqueueEnvelope | src/tribe_broker_v1.py:540-620 | admission writes one message and one queued row per recipient, reports a duplicate, or rolls back |
| DeliveryLaws.AdmissionAnswer | src/tribe_broker_v1.py:540-620 | admission succeeds if and only if time has not fallen, the envelope is admissible, and no other one stands under its ID; the answer is its hash and whether it was there |
| DeliveryLaws.AdmittedIsReady | src/tribe_broker_v1.py:582-613 | a new message is stored as it came, and every recipient's delivery can be claimed at once |
| DeliveryLaws.AdmissionAdds | src/tribe_broker_v1.py:582-613 | admission adds one delivery per recipient and touches no other row |
| BrokerStore.SQLiteBroker.InsertDeliveries | src/tribe_broker_v1.py:597-613 | the recipient loop adds exactly one queued row per recipient, numbered onwards |
| BrokerStore.SQLiteBroker.ClaimBatch | src/tribe_broker_v1.py:660-722 | expiry, selection and the leasing loop, or rollback |
| DeliveryLaws.ClaimAccepts | src/tribe_broker_v1.py:660-722 | a claim is accepted if and only if recipient, limit, lease time and fresh lease IDs are in range |
| DeliveryLaws.ClaimAnswer | src/tribe_broker_v1.py:678-722 | what a claim hands out is what its rows now say: ready once expired, leased under this lease, one attempt further, no other column changed |
| DeliveryLaws.ClaimSpares | src/tribe_broker_v1.py:678-722 | every delivery not handed out is only expired |
| BrokerStore.SQLiteBroker.LeaseRows | src/tribe_broker_v1.py:693-721 | the loop leases exactly the selected rows one by one and reports each |
| BrokerStore.SQLiteBroker.AcknowledgeDelivery | src/tribe_broker_v1.py:724-828 | a genuine acknowledgement settles the row whose live lease it names; a repeated one is answered from the log |
| DeliveryLaws.AckAnswer | src/tribe_broker_v1.py:724-828 | a first genuine acknowledgement is accepted if and only if it names a live lease; it settles that row alone, is logged and answered with it |
| DeliveryLaws.SettledColumns | src/tribe_broker_v1.py:774-828 | which columns settling changes, with the note for each outcome |
| RoundTrip.ClaimedThenSettled | src/tribe_broker_v1.py:660-828 | round trip: the report a receiver makes of what it was handed is accepted while the lease lives and settles exactly that delivery |
| Acceptance.GenuineExactly | src/tribe_broker_v1.py:134-212 | an acknowledgement is genuine if and only if it is well formed, timely and signed over its body by an active key of its receiver |
| BrokerStore.SQLiteBroker.MoveCursor | src/tribe_broker_v1.py:830-879 | a cursor moves forward onto a finished delivery of its recipient, or the call fails |
| DeliveryLaws.CursorMoves | src/tribe_broker_v1.py:830-879 | a cursor moves if and only if forward, onto a finished delivery of its recipient or at zero; no other cursor or table changes |
| BrokerStore.SQLiteBroker.StageOutbox | src/tribe_broker_v1.py:892-925 | an envelope is staged once; another one under its ID is a conflict |
| OutboxLaws.StagedOnce | src/tribe_broker_v1.py:892-925 | staged again, an envelope gets the same row, and another one under its ID conflicts |
| OutboxLaws.StagingAdds | src/tribe_broker_v1.py:892-925 | a new outbox row is due at once and untried; the rows already there stay |
| BrokerStore.SQLiteBroker.ClaimOutboxBatch | src/tribe_broker_v1.py:927-995 | expiry, selection and leasing of outbox rows, or rollback |
| OutboxLaws.OutExpiresWhenDue | src/tribe_broker_v1.py:944-961 | a lapsed lease returns its row to the queue, due at once, or buries it exactly when its attempts are spent; nothing else expires |
| OutboxLaws.OutBuriedExactly | src/tribe_broker_v1.py:944-1060 | over any transaction a row dies exactly by a lapsed last attempt, a final refusal, or a failure that spends the last one |
| OutboxLaws.OutLowestFirst | src/tribe_broker_v1.py:962-976 | a due row is passed over only when lower rows fill the limit |
| OutboxLaws.OutClaimAnswer | src/tribe_broker_v1.py:962-995 | what is handed out is what the rows now say, and every other row is only expired |
| BrokerStore.SQLiteBroker.LeaseOutRows | src/tribe_broker_v1.py:971-994 | the loop leases exactly the selected outbox rows |
| BrokerStore.SQLiteBroker.CompleteOutboxRow | src/tribe_broker_v1.py:997-1060 | completion under the live lease, or a lease conflict |
| OutboxLaws.CompletionAnswer | src/tribe_broker_v1.py:997-1060 | completion is accepted if and only if under the live lease; it gives the state, backoff and receipt its answer asks for |
| BrokerStore.SQLiteBroker.Maintenance | src/tribe_broker_v1.py:1062-1092 | expiry, then the purge with its cascades |
| Broker.Selected | src/tribe_broker_v1.py:678-692 | a claim selects ready rows only, in ascending order, within the limit |
| Broker.FindLeased | src/tribe_broker_v1.py:748-764 | the acknowledgement lookup finds a row that fits whenever one exists |
| BrokerFacts.NothingStaleAfterExpiry | src/tribe_broker_v1.py:622-658 | after expiry no lease has ended and no unfinished delivery belongs to an expired message |
| DeliveryLaws.ExpiresWhenDue | src/tribe_broker_v1.py:622-658 | a row with no lapsed lease and no expired message stays unchanged under expiry |
| DeliveryLaws.LapsedIsReady | src/tribe_broker_v1.py:628-643 | a lapsed lease with attempts left and a live message puts its row back, ready for its recipient at once |
| DeliveryLaws.BuriedByExpiry | src/tribe_broker_v1.py:622-658 | expiry buries an unfinished row if and only if its message is over, or its lease is and its attempts are spent |
| DeliveryLaws.BuriedExactly | src/tribe_broker_v1.py:622-828 | over any transaction a delivery is buried if and only if its message expired, its last lease lapsed, or its holder reported a terminal failure or spent the last attempt |
| BrokerFacts.LowestFirst | src/tribe_broker_v1.py:678-692 | a ready row is passed over only when lower rows fill the limit |
| BrokerFacts.RetrySchedule | src/tribe_broker_v1.py:788-794 | backoff starts at the base, doubles per attempt and stops at the ceiling |
| BrokerFacts.RunOnePerRecipient | src/tribe_broker_v1.py:332-366 | in every reachable state there is at most one delivery per message and recipient |
| BrokerFacts.AckFitsOneRow | src/tribe_broker_v1.py:748-764 | an acknowledgement fits at most one row, so the unordered lookup is deterministic |
| BrokerFacts.StepKeepsAcks | src/tribe_broker_v1.py:1062-1092 | every logged acknowledgement belongs to an existing delivery, purges included |
| BrokerFacts.AckAnsweredAgain | src/tribe_broker_v1.py:737-747 | an accepted acknowledgement sent again gets the same answer and changes nothing |
| BrokerFacts.GenuineAck | src/tribe_broker_v1.py:134-212 | an accepted acknowledgement is signed over its own body by a key the receiver owns |
| BrokerFacts.SettledMeans | src/tribe_broker_v1.py:774-828 | outcome and attempts decide the new state, finished rows keep the report, retried rows wait out their backoff |
| BrokerFacts.RunEvidence | src/tribe_broker_v1.py:748-828 | in every reachable state each acknowledged delivery holds its recipient's signed report of success for its own envelope |
| BrokerFacts.CursorNeverFalls | src/tribe_broker_v1.py:859-868 | no transaction lowers a consumer's cursor |
| BrokerFacts.CursorNamesFinished | src/tribe_broker_v1.py:846-858 | a cursor moves only to zero or onto a finished delivery of its recipient |
| BrokerFacts.PurgedExactly | src/tribe_broker_v1.py:1070-1092 | a purge removes exactly the messages whose deliveries all finished before the cutoff, and exactly their rows |
| DeliveryLaws.PurgeSpares | src/tribe_broker_v1.py:1070-1092 | a purge deletes nothing that belongs to no purged message: no delivery, acknowledgement, cursor, record or outbox row |
| BrokerRuns.RunGood | src/tribe_broker_v1.py:300-436 | over every run: claimed exactly with a lease, queued below the attempt limit, attempts within it, every row with its message and every message with a row |
| BrokerRuns.RowOf | src/tribe_broker_v1.py:540-1092 | what any transaction does to one delivery, and that only a purge deletes it |
| BrokerRuns.NewRow | src/tribe_broker_v1.py:582-613 | rows appear only by admission of a message not yet stored, queued, numbered onwards |
| BrokerRuns.MessageOf | src/tribe_broker_v1.py:549-1092 | a stored message never changes, appears only by admission and disappears only by a purge it qualifies for |
| DeliveryMeasure.TerminalStays | src/tribe_broker_v1.py:622-658 | a finished delivery never changes again in any column |
| DeliveryMeasure.StepWeight | src/tribe_broker_v1.py:622-828 | every state change lowers the measure 2*(max-attempts)+[claimed], nothing raises it |
| DeliveryMeasure.BoundedChanges | src/tribe_broker_v1.py:622-828 | over any run a delivery changes state at most 2*max times |
| DeliveryMeasure.BoundedClaims | src/tribe_broker_v1.py:693-709 | over any run a delivery is claimed at most max times |
| OutboxMeasure.OutboxBoundedChanges | src/tribe_broker_v1.py:927-1060 | over any run an outbox row changes state at most 2*max times |
| OutboxMeasure.OutboxRestStays | src/tribe_broker_v1.py:1018-1060 | a sent or dead outbox row never changes again |
| OutboxMeasure.RunOutboxOk | src/tribe_broker_v1.py:389-414 | over every run: sending exactly with a lease, attempts within the limit, sent exactly with a receipt |
| OutboxMeasure.FailedRowWaits | src/tribe_broker_v1.py:1029-1044 | after a failed completion no claim takes the row before its backoff has passed |
| Leases.SuccessiveClaims | src/tribe_broker_v1.py:678-709 | without assuming a monotone clock, the next claim of a delivery starts at or after the previous lease's end, or a full backoff after a retryable failure its holder reported |
| Leases.OneHolder | src/tribe_broker_v1.py:693-709 | with distinct lease IDs no two deliveries hold the same lease |
| Leases.EndedStays | src/tribe_broker_v1.py:693-709 | an issued lease that is gone stays gone |
| Leases.StaleAckIsInert | src/tribe_broker_v1.py:748-773 | an acknowledgement naming a lost lease changes no delivery, however late |
| Leases.SettledOnce | src/tribe_broker_v1.py:737-794 | after an accepted acknowledgement no other one for that lease changes any delivery |
| Admission.AdmittedOnce | src/tribe_broker_v1.py:549-620 | with a rising clock and purges that keep lifetime plus three skews, no message is ever admitted as new twice, even with other bytes |
| Admission.SameBytesAdmittedOnce | src/tribe_broker_v1.py:549-620 | for identical bytes lifetime plus one skew suffices |
| RetentionExact.RetentionIsExact | src/tribe_broker_v1.py:1070-1092 | that retention is the exact bound: less by one millisecond, and a concrete run admits a message twice |
| RetentionExact.SameBytesRetentionIsExact | src/tribe_broker_v1.py:1070-1092 | the same for identical bytes |
| RetentionExact.RunsAreServed | src/tribe_broker_v1.py:549-620 | the refuting runs take every context and acknowledgement key from one directory that is valid at each of their times |
| Requests.RecordedOnce | src/tribe_broker_v1.py:509-538 | a request recorded while unexpired is never recorded again while unexpired, across pruning and rollbacks |
| Requests.HighWaterRises | src/tribe_broker_v1.py:467-502 | no transaction lowers trusted time |
| Transport.AcceptedIsAuthentic | src/tribe_transport_v1.py:81-157 | an accepted request was signed for this path and body by its agent's active key and is unexpired |
| Acceptance.AuthenticExactly | src/tribe_transport_v1.py:81-157 | a request is authentic if and only if it is for this call and body, fresh, and signed by a key of its agent in force at issuance and now |
| Transport.WrappedIsAccepted | src/tribe_transport_v1.py:46-157 | round trip: a wrapped request is accepted if and only if it has started within one skew, is unexpired, and its key's window covers issuance and arrival |
| Service.TribeV1Service.CheckRoute | src/tribe_service_v1.py:82-140 | the route rules of messages, claims and acknowledgements, in order |
| Acceptance.RoutedExactly | src/tribe_service_v1.py:82-140 | exactly these requests are routed: an admissible message of the caller's own that respects its locality, a claim for the caller of at most three, an acknowledgement by the caller |
| Acceptance.RouteComplaint | src/tribe_service_v1.py:82-140 | every routing complaint is true of path, caller and body |
| Acceptance.LocalityExactly | src/tribe_locality_v1.py:41-57 | a sender whose name ends in @localhost is one of this machine and addresses somebody, all of this machine; every other sender passes, if and only if |
| Service.TribeV1Service.Dispatch | src/tribe_service_v1.py:175-196 | the effect is the broker transaction of the route, committed or rolled back |
| Acceptance.EffectCarries | src/tribe_service_v1.py:175-196 | the transaction carries the request's own arguments, under the loaded directory's tables |
| Service.EffectIsOwn | src/tribe_service_v1.py:82-140 | a routed request sends as, claims for and acknowledges as the authenticated agent only |
| Service.TribeV1Service.Post | src/tribe_service_v1.py:142-196 | time, directory, authentication, route, replay record and effect in that order; a refusal keeps only what was committed before it |
| Service.TakesEffectExactly | src/tribe_service_v1.py:142-196 | the effect is reached if and only if time, directory, authentication and route pass and no unexpired record of the request stands |
| Service.PostAnswers | src/tribe_service_v1.py:142-196 | a success means the effect; a fallen clock and a replay are answered as such; the directory state moves exactly when time and directory pass |
| Service.RefusalsInOrder | src/tribe_service_v1.py:142-171 | directory, authentication and route are answered as themselves, the earlier one first |
| Service.EffectAnswers | src/tribe_service_v1.py:142-196 | where the effect is reached, the reply is the effect's own answer and the tables are the effect's on top of the recorded request |
| Service.RefusedLeavesTables | src/tribe_service_v1.py:142-196 | a request that does not reach its effect changes no table but trusted time and replay records |
| Service.TakesEffectOnce | src/tribe_service_v1.py:142-196 | over any requests one after the other, prunings and other transactions at any clocks, a signed request takes effect at most once |
| ServiceThreads.ActedOnce | src/tribe_service_v1.py:142-230 | however the steps of any number of requests interleave, with each other and with other transactions, no signed request is acted upon twice, and only recorded ones are |
| ServiceThreads.UninterruptedIsPost | src/tribe_service_v1.py:142-196 | a request whose steps nothing interrupts leaves broker, directory state and effects as one call of post does |
| Service.CutKeyNeverReturns | src/tribe_service_v1.py:142-154 | a key whose window ended at an observed trusted time authenticates nothing any more, whatever the wall clock shows |
| Provisioning.VerifyPackage | src/tribe_provisioning_v1.py:767-872 | a package is accepted if and only if seal, times, fields, directory, bindings and authorizations hold |
| PackageLaws.PackageExactly | src/tribe_provisioning_v1.py:767-872 | a package is accepted if and only if, entry by entry, its authority signed it, the time is within its seven days at most, it binds its valid directory and roots, and local principals and audiences are active there |
| Provisioning.Target.Decide | src/tribe_provisioning_v1.py:1148-1313 | the checks before the first write, in order, an unreadable environment file included, with the journal's time when one stands |
| PackageLaws.LocalInputsExactly | src/tribe_provisioning_v1.py:981-1004 | the machine fits if and only if agent and local principals are the manifest's and its keys are those the directory selects or still holds for the agent |
| PackageLaws.EnvironmentExactly | src/tribe_provisioning_v1.py:961-972 | an environment is accepted if and only if no value holds a control character, a backquote or the start of a substitution |
| PackageLaws.FilesFitExactly | src/tribe_provisioning_v1.py:1195-1313 | which installed files a package may find: each missing, its own, or its predecessor's, and none without high-water but what an interrupted first installation left |
| PackageLaws.NextAccepted | src/tribe_provisioning_v1.py:1195-1313 | after a completed installation exactly the same package and direct successors under the same roots pass the file checks |
| PackageLaws.RefusedBecause | src/tribe_provisioning_v1.py:1195-1313 | each refusal after a completed installation, if and only if: rollback, conflict, gap, other roots, other predecessor |
| Provisioning.Target.Install | src/tribe_provisioning_v1.py:1318-1369 | the ordered conditional writes, cut off anywhere |
| Provisioning.Target.ApplyPackage | src/tribe_provisioning_v1.py:1007-1369 | refusal changes no file; otherwise exactly the first writes up to the cut are done |
| PackageLaws.InstalledMeans | src/tribe_provisioning_v1.py:1318-1369 | every file of a completed installation in terms of package and machine: state and high-water name directory, roots and package; the environment holds this agent, its local principals, the package's endpoints, routes and build, this machine's paths |
| PackageLaws.JournalMeans | src/tribe_provisioning_v1.py:1318-1369 | the journal of an interrupted installation names the package, its agent, its directory and the time of the checks |
| ProvisioningRuns.RunKeeps | src/tribe_provisioning_v1.py:1148-1369 | over any attempts, single writes, crashes and client steps in which no client's write is overtaken, the target is at rest or at a definite stage of one accepted package |
| ProvisioningRuns.EpochsStaged | src/tribe_provisioning_v1.py:1318-1369 | in such runs high-water, state and directory epochs are always one of the four stages between the installed and the same or next epoch |
| ProvisioningRuns.RerunCompletes | src/tribe_provisioning_v1.py:1148-1194 | in such runs re-running the journaled package at any time, expired or not, is accepted and ends in exactly the uninterrupted installation |
| ProvisioningRuns.OthersChangeNothing | src/tribe_provisioning_v1.py:1148-1194 | over any run, while a transaction is unfinished every other package is refused and no file changes |
| ProvisioningRuns.JournalTells | src/tribe_provisioning_v1.py:1315-1369 | over any run the journal stands exactly while a begun transaction is unfinished |
| ProvisioningRuns.ClientWriteKeepsReached | src/tribe_directory_v1.py:474-526 | a client's write between two writes of provisioning, not overtaken, changes nothing or takes the state file to the new directory early |
| ProvisioningRuns.StateNeverFalls | src/tribe_directory_v1.py:469-526 | over clients that read, lock, compare and write in separate steps, the state's epoch never falls if and only if no decided write is overtaken |
| ProvisioningRuns.LockingIsTimely | src/tribe_provisioning_v1.py:1332-1333 | where provisioning writes the state file only while no client holds its lock, no decided write is overtaken |
| OvertakenWrite.StateFallsBack | src/tribe_provisioning_v1.py:1332-1333 | a concrete run: two packages installed without a crash, then a stalled client's write takes the state from epoch 2 back to 1 |
| Inbox.InboxStore.Begin | src/tribe_client_v1.py:348-417 | begin grants the effect to one caller, takes over after five minutes, and rejects another envelope under the same ID |
| Inbox.GrantedExactly | src/tribe_client_v1.py:371-414 | the effect is granted if and only if the row is absent, or still processing five minutes after the last grant for the same envelope |
| Inbox.MalformedExactly | src/tribe_client_v1.py:348-370 | a delivery is malformed if and only if its sender's ID, message ID or digest is |
| Inbox.InboxStore.Finish | src/tribe_client_v1.py:419-444 | finish overwrites the state of an existing row |
| Inbox.InboxStore.Release | src/tribe_client_v1.py:446-456 | release deletes a row only while it is processing |
| Inbox.ReleasedExactly | src/tribe_client_v1.py:446-456 | exactly the unfinished row goes, every other row stays |
| Inbox.ClaimAndProcess | src/tribe_client_v1.py:459-544 | the processing loop over one claim response, with its early stops |
| Inbox.HandledMeans | src/tribe_client_v1.py:483-521 | success is reported exactly over a processed row, failure over a failed one, nothing over one in progress, and no other row changes |
| Inbox.YieldedMeans | src/tribe_client_v1.py:483-521 | a payload is yielded if and only if the effect is granted and the envelope opens; the row keeps that payload |
| Inbox.GoesOnExactly | src/tribe_client_v1.py:475-544 | the loop goes past a claim if and only if it was handled and its acknowledgement, if due, was answered |
| Inbox.FailureStops | src/tribe_client_v1.py:475-544 | a failed batch is as the failing claim left it, with that claim's failure |
| Inbox.BatchReports | src/tribe_client_v1.py:475-544 | acknowledgements and payloads are exactly those of the claims reached |
| Sender.Decisive | src/tribe_client_v1.py:138-173 | fallback ends at the first endpoint that answers at all |
| Sender.SendWithFallback | src/tribe_client_v1.py:106-181 | staging, claiming, the endpoint loop and the completion, equal to its specification |
| Sender.SendMeans | src/tribe_client_v1.py:138-163 | when sending succeeds, the first endpoint to answer accepted, and the row is sent with its receipt |
| Sender.SendAnswers | src/tribe_client_v1.py:106-181 | acceptance, refusal and unavailability are answered exactly as the endpoints answer a claimed row, which ends sent, dead or queued; without endpoints or against locality nothing is staged |
| Sender.FlushOutbox | src/tribe_client_v1.py:199-290 | the flush loop over claimed rows, equal to its specification |
| Sender.FlushSettles | src/tribe_client_v1.py:199-290 | every claimed row is settled by its own answer, no other row is touched, no lease conflict arises |
| Sender.FlushReports | src/tribe_client_v1.py:271-290 | the three lists name exactly the claimed rows: accepted ones as sent, refused ones as dead, unavailable ones as pending |
| Sender.AnswerMeans | src/tribe_client_v1.py:199-270 | a claimed row is refused unasked exactly for its locality or for want of an endpoint, otherwise the first endpoint to answer decides |
| Sender.ClaimsAreLeased | src/tribe_client_v1.py:199-224 | right after claiming every claim is leased for a minute and no row is claimed twice |
| EndToEnd.RunKeeps | src/tribe_client_v1.py:106-544 | over every run the invariant of outbox, brokers, workers and claims; successes are backed too where finishing a processed row opens it again, and yields are distinct where it spares such rows |
| EndToEnd.AcknowledgedIsProcessed | src/tribe_client_v1.py:419-544 | over all runs in which no finish of a processed row fails to open it again, a delivery is acknowledged on any broker only if the inbox has processed that very envelope |
| EndToEnd.YieldedOnce | src/tribe_client_v1.py:483-544 | over all routes, retries and crashes each message is yielded at most once, where no worker finishes a row that is already processed |
| LateFinish.RepeatsExactly | src/tribe_client_v1.py:434-441 | after any such run the next finish, whatever row it finds, yields a payload a second time if and only if it opens one already yielded; these are the processed rows unless a process ended before its reports |
| LateFinish.BackedExactly | src/tribe_client_v1.py:434-521 | after any run that opened processed rows again, the next finish keeps every signed success backed if and only if it opens a message whose success is signed; these are the processed rows unless a process ended before its reports |
| LateFinish.AlwaysBackedExactly | src/tribe_client_v1.py:434-521 | of all runs in which no process ends between a finish and its reports, exactly those where every finish of a processed row opens it again keep every signed success backed throughout |
| LostSuccess.AcknowledgedButFailed | src/tribe_client_v1.py:434-521 | a concrete run from the start: the second worker's report is accepted, then the first one fails to store; the delivery is acknowledged and its row failed |
| LateFinish.TimelyIsGuarded | src/tribe_client_v1.py:371-444 | runs in which only the worker last granted an effect finishes it never finish a processed row |
| EndToEnd.SentIsCommitted | src/tribe_client_v1.py:199-290 | over every run, however workers finish, an outbox row is sent only if some broker has committed its message |
| Network.HandleIsSteps | src/tribe_client_v1.py:483-544 | handling one claim in the loop is the network's begin step and, for a new one, its finish step |
| LateFinish.LateWorkerRepeats | src/tribe_client_v1.py:434-441 | a worker resuming after another one took over and finished yields the message a second time |
| LateWorker.LateFinishRepeats | src/tribe_client_v1.py:348-544 | a concrete run from the start: sent, claimed, begun, claimed again, taken over, finished, finished late; the message is yielded twice |
| Rendering.EscapeOne | src/tribe_mirror_v1.py:353-355 | five successive replacements escape each character independently |
| Rendering.EscapedLength | src/tribe_mirror_v1.py:353-355 | the sum of single-character escaped lengths is the escaped length of the text |
| Rendering.BisectRight | src/tribe_mirror_v1.py:359-362 | the search returns the number of sums within the bound |
| Rendering.Prefix | src/tribe_mirror_v1.py:352-354 | the running sums are the escaped lengths of the prefixes |
| Rendering.ChunkText | src/tribe_mirror_v1.py:343-365 | the chunks are the greedy pieces: every cut goes as far as the budget |
| Rendering.ChunksSound | src/tribe_mirror_v1.py:343-365 | chunks concatenate to the text and each escaped chunk fits the budget |
| Rendering.CutsAtBudget | src/tribe_mirror_v1.py:344-365 | each chunk stays within 3500 escaped characters and one more character of the text would not |
| Rendering.GreedyIsOptimal | src/tribe_mirror_v1.py:343-365 | no fitting split has fewer pieces |
| Rendering.TooManyExactly | src/tribe_mirror_v1.py:396-399 | the notice is due exactly when no fitting split into four parts exists |
| Rendering.RenderParts | src/tribe_mirror_v1.py:390-408 | an allowed message is rendered as its numbered chunks, or as one notice exactly when no split into four parts exists |
| Rendering.AllowedExactly | src/tribe_mirror_v1.py:318-335 | a message is mirrored if and only if kind, audience and classification are configured and its payload repeats its envelope |
| Rendering.PartsRead | src/tribe_mirror_v1.py:336-408 | what each rendered message says: sender, audience and message ID in bold, the part's number and the total, and the escaped chunk, or the notice with length and hash |
| Rendering.RenderedFits | src/tribe_mirror_v1.py:367-408 | with identifiers and a 36-character message ID every rendered message stays below 4096 characters |
| MirrorProgress.MirrorProgressStore.Resume | src/tribe_mirror_v1.py:109-168 | resume creates a row at zero, returns the cursor, or refuses a changed rendering |
| MirrorProgress.MirrorProgressStore.Advance | src/tribe_mirror_v1.py:170-204 | the cursor moves only from the delivered part |
| MirrorProgress.MirrorProgressStore.Clear | src/tribe_mirror_v1.py:206-215 | clearing deletes the message's row only |
| MirrorProgress.DeliverRenderedParts | src/tribe_mirror_v1.py:218-258 | the delivery loop with its failures and a stop at any part, and exactly which parts it hands to the sender |
| MirrorProgress.AttemptMeans | src/tribe_mirror_v1.py:218-258 | after any run an attempt sends the parts from the cursor on, in turn, and either returns having sent the rest, or names the part it stopped at and why and leaves the cursor there |
| MirrorProgress.NeverSkipsNeverFalls | src/tribe_mirror_v1.py:109-258 | over any interrupted attempts, since the row was last cleared, the part index repeats only after a send that did not move the cursor, otherwise grows by one |
| MirrorProgress.NormalReturnSentAll | src/tribe_mirror_v1.py:218-258 | a normal return means every part was sent and confirmed since the row was last cleared |
| MirrorProgress.ChangedRenderingRefused | src/tribe_mirror_v1.py:109-168 | over any attempts and clearings, an attempt is refused as changed, before any send, if and only if envelope or rendering differ from the first attempt since the last clearing |
| MirrorProgress.OneRendering | src/tribe_mirror_v1.py:109-258 | every send since the last clearing shows the rendering of the first attempt |
| Coordination.ReduceEvents | src/github_coordination.py:383-413 | the reduction loop over sorted events, equal to its fold |
| Coordination.OrderIrrelevant | src/github_coordination.py:383-413 | acceptance and effective claims do not depend on the input order |
| Coordination.AcceptedClaimIsRegular | src/github_coordination.py:368-413 | an accepted claim starts with its only claim event, keeps its identity, rises in time, has nothing after a terminal event and nothing but a release after a lease's end; the effective event is the last |
| Coordination.AcceptedExactly | src/github_coordination.py:368-413 | a log is accepted if and only if no event ID repeats and every claim's history is regular |
| Coordination.IdentityKept | src/github_coordination.py:368-380 | all events of an accepted claim share issue, principal, resources, branch and predecessor, and only the first is a claim event |
| Coordination.WellFormedExactly | src/github_coordination.py:266-290 | what a single event must say, with the lease bound in numbers |
| Coordination.EffectiveAtIsReduced | src/github_coordination.py:383-413 | a claim's last event up to an instant is what reducing the log of that instant yields |
| Coordination.LiveUntilItEnds | src/github_coordination.py:368-413 | a claim that never enters ready is live at an instant exactly before its last active lease end and before any terminal event |
| Coordination.ADayWithoutNews | src/github_coordination.py:282-288 | whoever is live at an instant has an event within the day before it |
| Coordination.CheckSupersedes | src/github_coordination.py:422-451 | exactly the claims with a missing or unended predecessor are reported, each once; exactly the properly superseded claims are collected |
| Coordination.CheckLeases | src/github_coordination.py:452-473 | exactly the active, lapsed, unsuperseded claims are reported, each once; exactly the live claims are collected, in order |
| Coordination.CheckOverlaps | src/github_coordination.py:474-488 | exactly the pairs of live claims that share a resource are reported, each once |
| Coordination.AuditEvents | src/github_coordination.py:416-489 | the audit reports exactly the findings that stand, each once, clashing claims in the order of their IDs; none exactly when the log is clean, and then live claims hold pairwise disjoint resources |

## Left out

- Cryptography, base64, canonical JSON and HPKE: symbolic hashes and signatures, opaque bytes; what a private key opens is a function of the envelope.
- Parsing of files and requests: model files and bodies are parsed documents; text that does not parse is refused by the source before any change; of such files only the installed environment file, which an operator may edit, is modelled.
- SQLite mechanics: journal modes, pragmas, backups, integrity checks and corruption errors; integer message keys (messages are keyed by sender and message ID) and the texts of errors kept with outbox rows.
- Metrics, health, HTTP framing, environment loading, command-line scripts, Telegram transport and inbound updates.
- File descriptors, ownership and permission checks of provisioning; a target directory shared by several agents; URL and route syntax and artifact byte hashes of a package.
- The unlocked preflight of `apply_package`: it makes the same checks as the locked ones, earlier.
- `build_package` and `doctor`: reading and building only.
- `activate_staged_bundle`: its backup is not written atomically, so a crash inside that write is outside what its retry handles.
- Membership, manifest and sent-gate modules: easy invariants or string similarity only; of the locality module only the boundary check is modelled.
- NeverSkipsNeverFalls: the attempts for one message come one after the other; a second worker that takes over while the first is still sending is not modelled.
- Comment parsing and author audit of the claim log; the note and pull request fields of its events.
- A cursor does not imply that lower rows are finished, and composition cuts only the two named previous keys per agent; neither is claimed.
