# Verified models of acapy-cloud

Dafny models of the logic that acapy-cloud adds around ACA-Py, NATS, S3 and Postgres, with proofs of what
that logic promises. `dafny verify dfyconfig.toml` checks the whole project.

| area | modules |
|---|---|
| Waypoint event stream: an SSE client waits for the first event with a given field | `EventLog`, `EventStream`, `EventStreamProofs` |
| Tenant lifecycle over two stores, wallets and trust registry actors, without a common transaction | `ActorRegistry`, `TenantSaga`, `TenantSagaProofs`, `TenantRoutes`, `TenantRoles` |
| Base58, did:key and the tails store addressed by content | `Radix`, `Base58`, `DidKey`, `Tails` |
| Identifier printing and parsing and the schema table | `Text`, `SchemaIds`, `SchemaRegistry`, `StringList` |
| Unpadded base64url token payloads | `TokenPayload` |
| Retries and revocation | `Retry`, `Revocation` |

`Wrappers` holds Option and Result.

Where the code changes state step by step, a method or class runs the same steps and is proved equal to a
transition function; the theorems are then about every run of that function. The event stream is a machine
with one step per iteration of the fetch loop, driven by an arbitrary script of arrivals, clock readings and
fetch outcomes. The tenant requests are a machine with one step per external call, driven by an arbitrary
interleaving of any number of requests in which every call may fail.

## Assumptions

- A failed call to ACA-Py, the registry or the bucket had no effect, and uniqueness is enforced atomically
  at commit.
- ACA-Py hands out fresh wallet ids. Updates and deletes name only wallets whose create has returned.
- A fetch that raises has taken no messages from the subscription, `unsubscribe` always ends it, and `ack`
  raises no timeout. A new subscription starts again at the original start time. Leaving the
  `async for` loop closes the event generator at the yield it stands at, so its `finally` clause runs.
- The disconnect check may set the stop event at any time. The stream looks at it only at the loop head, so
  an event set during an iteration counts as set before the next loop head, or, where the resubscription of
  that iteration raises, as part of that exit.
- `_subscribe` either returns a fresh subscription or raises, however often it retries inside.
- Absorbing data into SHA-256 piece by piece is absorbing it at once; nothing else of the hash is used.
  Reading an upload yields no empty chunks.
- Base58 follows sections 3 and 4 of draft-msporny-base58; `b58decode` strips trailing white space.
  `base64.b64decode` skips characters outside its alphabet and stops at complete padding, as the Python
  library does when it does not validate; the URL-safe alphabet is that of section 5 of RFC 4648. JSON decoding of the bytes is not
  part of this model.

## What the code does differently from what one may expect

- A resubscription that raises ends the stream without setting the stop event, unlike every other exit once
  a subscription was made; the event is left as the disconnect check has it
  (`StopIsSetUnlessSubscribingFailed`, `StopAfterFailedResubscription`, `ResubscriptionMayFail`).
- Missed heartbeats are counted across successful fetches: only a resubscription resets the counter
  (`MissesAreCounted`).
- A `Schema` built from an id alone accepts any second part, not only the marker 2; validated again, such a
  schema is rejected (`IdAloneExactly`, `IdAloneMayBeInconsistent`). The registry routes never store one.
- `_get_schema_attrs` says that it splits from the back; it splits from the front.
- Updates of one tenant that interleave can lose a role that was just stored (`RoleIsLostExactly`, `ConcurrentUpdatesLoseARole`).
- An empty list of strings comes back from its column as a list of one empty string (`EmptyListIsLost`).
- The pattern of `ed25519_verkey_to_did_key` accepts one trailing line feed, so two accepted keys may share
  a did:key (`DidKeyIsInjective`, `LineFeedIsIgnored`). The length check rejects 32-byte keys that are small enough, the all-zero
  key among them (`LengthCheckAccepts`, `ZeroKeyIsRejected`).
- A tails file whose first chunk is a single byte is rejected for its header (`ShortHeadIsRejected`).
- A token payload with `>`, `?`, `~` or DEL at the end of a group of three bytes is not read back, because
  the segment is decoded with the standard alphabet (`AsciiPayloadExactly`, `QuestionMarkIsLost`).
- `coroutine_with_retry_until_value` documents that it returns None, or raises the last exception, when the attempts run out; it
  raises TimeoutError in both cases.

## Model

| member | source | states |
|---|---|---|
| EventLog.FirstMatchIsFirst | waypoint/routers/sse.py:58-69 | the specification of the service is the event at the least position whose payload has the wanted field value, and is absent iff no event has it |
| EventLog.FirstMatchInWords | waypoint/routers/sse.py:64-65 | spelled out: the first event that decodes and whose payload has the wanted id as a string in the wanted field |
| EventLog.SelectedExactly | waypoint/services/nats_service.py:97-104 | a consumer is sent exactly the messages on the subscribed subject that are not older than the start time, each as often as the log holds it |
| EventLog.RelevantBySubject | waypoint/services/nats_service.py:97-104 | for tokens without dots, a message is relevant iff the subject string subscribed to matches, token by token, the one it is published on, and it is not older than the start time |
| EventLog.EveryGroup | waypoint/services/nats_service.py:97 | without a group, or with an empty one, the group of a message does not matter |
| EventLog.SelectedAppend | waypoint/services/nats_service.py:97-104 | what a consumer of the subject from the start time is sent only grows with the log, so a replay begins with the same messages |
| EventLog.AnswerIsStable | waypoint/services/nats_service.py:101-104 | once some prefix of the log holds an answer, publishing more never changes it |
| EventStream.HandMessage | waypoint/services/nats_service.py:192-196 | a message is yielded, at the position the subscription has reached, iff it decodes; it is sent iff it also matches and the client is there; the stream goes on iff it decodes, does not match and nothing interrupts; the stop event is set iff the stream ends |
| EventStream.HandOver | waypoint/services/nats_service.py:192-196 | the loop over a batch hands out the next messages of the subscription in order until one ends the stream |
| EventStream.HandleFetch | waypoint/services/nats_service.py:188-247 | each outcome of a fetch has the effect the machine gives it, which FailedFetchEnds, QuietFetchGoesOn, LastMissResubscribes, BatchIsHandedOver and BatchEndsStream state |
| EventStream.StreamEvents | waypoint/services/nats_service.py:137-277 | the whole fetch loop with its `finally` clause equals the run of the machine, for every environment; what that run does is stated by the theorems over Run |
| EventStream.EndedRunStays | waypoint/services/nats_service.py:177-187 | after an exit nothing further happens |
| EventStreamProofs.RunKeeps | waypoint/services/nats_service.py:174-262 | the invariant of the stream: effects disciplined and in log order, answer correct for what was yielded, counters, stop event and phase consistent |
| EventStreamProofs.ClientGetsFirstMatch | waypoint/routers/sse.py:58-69 | over any run, replays included, the client is sent at most one event and it is the earliest match of everything yielded; once sent it is the answer of the whole log and of every longer log |
| EventStreamProofs.BatchIsSearched | waypoint/routers/sse.py:58-69 | an uninterrupted decodable batch is searched completely: its first match is sent, else the subscription moves past all of it |
| EventStreamProofs.MatchIsReached | waypoint/routers/sse.py:58-69 | over a whole run, if a match stands at position p of what the log holds for the query and everything up to it decodes, more than p uninterrupted non-empty batches before the end time, with empty fetches among them, send the client the first match |
| EventStreamProofs.EarlierEventsFirst | waypoint/services/nats_service.py:189-235 | an event is yielded only after every earlier selected event has been yielded in the same subscription, and each subscription yields a contiguous prefix of the log |
| EventStreamProofs.OneSubscription | waypoint/services/nats_service.py:214-262 | at every step at most one subscription is open, the old one is closed before a new one opens, fetches and yields use the open one, and none is open after any exit |
| EventStreamProofs.MissesStayBelowLimit | waypoint/services/nats_service.py:203-235 | at every loop head the counter of missed heartbeats is below a positive limit; with a limit of zero or less the stream never resubscribes |
| EventStreamProofs.StopIsSetUnlessSubscribingFailed | waypoint/services/nats_service.py:180-262 | a running stream has the stop event clear; every exit sets it but a failed subscription, which leaves it clear, and a failed resubscription |
| EventStreamProofs.StopAfterFailedResubscription | waypoint/services/nats_service.py:214-262 | a run that ends with a failed resubscription ends at the last missed heartbeat allowed, with the stop event set iff the disconnect check set it while the resubscription was awaited |
| EventStreamProofs.ResubscriptionMayFail | waypoint/services/nats_service.py:224-262 | a run that ends so, with the stop event clear or set |
| EventStreamProofs.MissesAreCounted | waypoint/services/nats_service.py:203-235 | in every run the counter is the number of heartbeats missed since a subscription was last opened, so a successful fetch does not reset it |
| EventStreamProofs.StreamTerminates | waypoint/services/nats_service.py:178-187 | no fetch starts at or after the end time, and with an advancing clock the loop ends within as many iterations as the duration has ticks, plus one |
| EventStreamProofs.LoopHeadEnds | waypoint/services/nats_service.py:180-186 | a running stream that finds the stop event set, or else the end time reached, ends so before another fetch, with the stop event set and the subscription closed |
| EventStreamProofs.FailedFetchEnds | waypoint/services/nats_service.py:239-262 | a fetch that raises or is cancelled ends a running stream as raised or cancelled, with the stop event set and no subscription open |
| EventStreamProofs.QuietFetchGoesOn | waypoint/services/nats_service.py:198-205 | a fetch without messages changes nothing, and a missed heartbeat below the limit only the counter |
| EventStreamProofs.LastMissResubscribes | waypoint/services/nats_service.py:207-235 | the last missed heartbeat allowed closes the subscription; the stream goes on from the start with a new one and the counter at zero, or ends as the resubscription did |
| EventStreamProofs.BatchIsHandedOver | waypoint/services/nats_service.py:189-196 | a batch, of at most the requested size, in which nothing happens is handed over completely and nothing is sent |
| EventStreamProofs.BatchEndsStream | waypoint/services/nats_service.py:189-247 | otherwise the stream ends at the first message that does not decode, matches or is cut short by the client leaving or the acknowledgement failing, with the exit that belongs to it, and sends exactly a match whose client is there |
| EventStreamProofs.NothingWithoutSubscription | waypoint/services/nats_service.py:264-277 | without a first subscription nothing is fetched, yielded or sent |
| ActorRegistry.ReachableTablesAreUnique | trustregistry/db.py:40-50 | in every reachable table no two rows share a name, a DID or a non-null invitation, and a create or update is accepted iff the DID is fully qualified, the id is absent (present) and that would still hold |
| ActorRegistry.OutcomesExactly | trustregistry/crud.py:85-205 | how a create and an update end in terms of the columns: the DID is not fully qualified, the id is taken (missing), another row has the name, DID or invitation, or the row is stored, with the old image if none is given |
| ActorRegistry.Session.Commit | trustregistry/crud.py:89-100 | a commit applies the pending change iff its id is free (for a create) and all unique columns stay distinct; otherwise the table is unchanged and the change still pending |
| ActorRegistry.Session.CreateActor | trustregistry/crud.py:85-145 | a create adds exactly the given row or, rejected, leaves the table unchanged after the rollback |
| ActorRegistry.Session.UpdateActor | trustregistry/crud.py:169-205 | an update replaces the columns of an existing row, keeping the stored image if none is given, and never inserts; a rejected one changes nothing |
| ActorRegistry.Session.PutActor | trustregistry/registry/registry_actors.py:43-67 | only the actor named in the path can change, a body naming another is refused, and no actor appears or disappears |
| ActorRegistry.Session.DeleteActor | trustregistry/crud.py:148-166 | a delete returns the row it removed, or reports that there is none |
| TenantSaga.CreateCallEffect | app/routes/admin/tenants.py:128-232 | one call of a create adds a wallet only at a fresh id, removes only its own in the compensation, adds an actor only at its own wallet, and changes at most one store; a failed call changes none and leads to the refusal or the compensation |
| TenantSaga.UpdateCallEffect | app/services/onboarding/tenants.py:26-111 | one call of an update changes only the named entry of one store, the actor before the wallet, and neither store gains or loses an id; a failed call aborts it |
| TenantSaga.DeleteCallEffect | app/routes/admin/tenants.py:273-299 | one call of a delete removes only the named actor or, once there is none, the named wallet; a failed call aborts it |
| TenantSaga.NameIsChecked | app/routes/admin/tenants.py:128-142 | in every state a create goes on from its name check to the wallet iff the check works and no actor has its label; otherwise it is refused with nothing made |
| TenantSaga.OvertakenByDelete | app/services/trust_registry/actors.py:269-302 | an update whose actor or wallet has been deleted meanwhile is aborted when it writes it; a delete counts a missing actor as removed and is aborted if the wallet is gone |
| TenantSaga.ArrivesExactly | app/routes/admin/tenants.py:248-280 | creates are always admitted, updates and deletes iff a create has returned their wallet |
| TenantSaga.WalletIsUpdated | app/services/onboarding/tenants.py:96-109 | an updated wallet has the label and the image given and keeps its own where none is given |
| TenantSagaProofs.DoKeeps | app/routes/admin/tenants.py:128-299 | every arrival and every external call, failing or not, keeps the invariant of the two stores and of all requests under way |
| TenantSagaProofs.NoOrphanActors | app/routes/admin/tenants.py:162-298 | in every interleaving with any failures every actor id is the id of an existing wallet, and the registry columns stay unique |
| TenantSagaProofs.CreateIsAllOrNothing | app/routes/admin/tenants.py:149-232 | in every interleaving a returned create has its wallet and, iff roles were given, its actor with the label as name and the requested roles, as created while no update or delete names the wallet and at all while no delete does; a failed one has neither, except a wallet without actor if the compensating delete failed |
| TenantSagaProofs.WalletsAreMadeOnce | app/routes/admin/tenants.py:165-169 | no two creates ever hold the same wallet |
| TenantSagaProofs.EveryWalletWasCreated | app/routes/admin/tenants.py:149-232 | every wallet in the store was made by some create that has not undone it |
| TenantSagaProofs.KeptUntilDeleted | app/routes/admin/tenants.py:149-232 | a returned create keeps its wallet and its actor until a delete names the wallet, whatever updates run |
| TenantSagaProofs.RacingCreatesRegisterOnce | app/routes/admin/tenants.py:128-142 | once a create with roles has registered, no other create with the same label registers before an update or delete has named the wallet of the first, although the name check comes before the write |
| TenantSagaProofs.StandingCreatesDiffer | app/routes/admin/tenants.py:128-142 | registered tenants that no update or delete has named have different labels |
| TenantRoutes.Cloud.CreateTenant | app/routes/admin/tenants.py:128-245 | the code of a create, call by call, is the machine's run alone, and its end is determined: refused if the label is an actor's name or the check or the wallet call fails; else returned if no roles are given, or if onboarding and registering work, the DID is fully qualified and no actor has the label, DID or invitation; else the wallet is deleted again, or left stray if that fails. Success adds exactly one wallet and at most one actor |
| TenantRoutes.Cloud.OnboardAndRegister | app/routes/admin/tenants.py:185-232 | after the wallet exists, onboarding and registering add the actor with the DID and invitation of the onboarding, or the compensation is entered, exactly as the answers decide |
| TenantRoutes.Cloud.DeleteStrayWallet | app/routes/admin/tenants.py:207-232 | the handlers remove the stray wallet unless that call fails too |
| TenantRoutes.Cloud.UpdateTenant | app/services/onboarding/tenants.py:26-111 | the code of an update is the machine's run alone; it finishes iff the calls made work, the wallet exists, a holder asks for no role, an added role is onboarded and the registry takes the actor; the actor then has what was asked for and the wallet the new label and image; only the named actor and wallet may change, and a failed update leaves the wallets unchanged |
| TenantRoutes.Cloud.HandleTenantUpdate | app/services/onboarding/tenants.py:26-111 | the part after the check that the wallet exists |
| TenantRoutes.UpdateEnds | app/services/onboarding/tenants.py:26-111 | over the machine's run alone, when an update finishes, when it writes its actor, and what it stores |
| TenantRoutes.Cloud.OnboardAgainThenUpdate | app/services/onboarding/tenants.py:62-94 | added roles onboard the tenant again before its actor and then its wallet are written |
| TenantRoutes.Cloud.BuildActor | app/services/onboarding/tenants.py:57-92 | the field-by-field update dictionary builds the actor asked for; onboarded again it has the DID and the invitation of the onboarding, and otherwise keeps its own |
| TenantRoutes.Cloud.WriteBack | app/services/onboarding/tenants.py:92-109 | the actor is written before the wallet, and the wallet only if that worked |
| TenantRoutes.Cloud.WriteWallet | app/services/onboarding/tenants.py:96-111 | the wallet takes the new label and image and keeps what was not given |
| TenantRoutes.Cloud.DeleteTenantById | app/routes/admin/tenants.py:273-299 | the code of a delete is the machine's run alone; it finishes iff the calls made work and the wallet exists, and then actor and wallet are gone; otherwise the wallet stays, and the actor is gone iff only the deletion of the wallet failed |
| TenantRoutes.Cloud.RemoveActorThenWallet | app/routes/admin/tenants.py:288-298 | the actor goes before the wallet, so no failure leaves an actor without wallet |
| TenantRoutes.Cloud.DeleteWallet | app/routes/admin/tenants.py:293-299 | the wallet is deleted only when it has no actor |
| TenantSaga.MergedCarries | app/services/onboarding/tenants.py:51-92 | the actor built from the one read has the new name and image where given, the union of the roles without duplicates, and iff a role is added the DID and the invitation of the onboarding, else its own |
| TenantRoles.SerialUpdateStoresUnion | app/services/onboarding/tenants.py:84-94 | with requests for one wallet serialised, writing an actor stores exactly what was asked for: the union of old and requested roles, and the old DID and invitation unless a role is added |
| TenantRoles.SerialRolesNeverShrink | app/services/onboarding/tenants.py:39-94 | over every serialised run the roles of an actor never shrink |
| TenantRoles.OnboardedIsStored | app/services/onboarding/tenants.py:77-94 | in every interleaving, the actor that an onboarded update writes has exactly the DID and the invitation its onboarding yielded |
| TenantRoles.OnboardedIsReturned | app/routes/admin/tenants.py:190-206 | in every interleaving, a create that returns after its onboarding returns what that yielded, which is what its actor has |
| TenantRoles.HoldersStayHolders | app/services/onboarding/tenants.py:39-49 | in every interleaving, a returned wallet without actor never gets one, so no update turns a holder into an actor |
| TenantRoles.RoleIsLostExactly | app/services/onboarding/tenants.py:38-94 | in every interleaving, an update that writes its actor loses a role iff the actor holds one that it did not hold when the update read it and that the update does not ask for |
| TenantRoles.OnlyWritingLosesRoles | app/services/onboarding/tenants.py:92-94 | in every interleaving nothing but an update writing its actor takes a role from an actor that stays |
| TenantRoles.ConcurrentUpdatesLoseARole | app/services/onboarding/tenants.py:38-94 | there is a run in which a rename overwrites a role that a promotion has just stored; it is not serialised |
| Radix.ConvertBack | app/util/did.py:24-26 | base conversion with leading zeros is a bijection between byte strings and base58 numerals |
| Radix.MoreDigits | app/util/did.py:26 | a number has more than k digits iff it reaches the k-th power of the base |
| Base58.DecodeEncode | app/util/did.py:24-26 | decoding undoes encoding for every byte string, leading zero bytes included |
| Base58.EncodeDecode | app/util/did.py:24-26 | decoding accepts exactly the strings over the base58 alphabet, and encoding undoes it |
| Base58.Alphabet | app/util/did.py:17-19 | the digits are the figures and letters other than 0, O, I and l |
| Base58.InAsciiOrder | app/util/did.py:17-19 | the 58 digits stand for the characters of the alphabet in ASCII order, which fixes the alphabet |
| DidKey.FingerprintHoldsKey | app/util/did.py:24-28 | decoding the fingerprint of an accepted key gives the bytes ed 01 followed by the key |
| DidKey.DidKeyIsInjective | app/util/did.py:16-28 | two accepted keys have one did:key iff they differ at most in a trailing line feed |
| DidKey.LineFeedIsIgnored | app/util/did.py:11-24 | a key of 43 characters and the same key with a line feed are both accepted and share their did:key |
| DidKey.InjectiveOnBase58 | app/util/did.py:16-28 | keys of 43 or 44 base58 characters are all accepted, and the conversion is injective on them |
| DidKey.FingerprintShape | app/util/did.py:24-27 | for every 32-byte key the fingerprint has 47 characters and begins with 6Mk |
| DidKey.LengthCheckAccepts | app/util/did.py:10-14 | a 32-byte key encodes to at most 44 characters, and is accepted iff its number reaches 58 to the power of 42 less its leading zero bytes |
| DidKey.LeadingByteIsEnough | app/util/did.py:10-14 | every 32-byte key with a non-zero first byte encodes to 43 or 44 characters and is accepted |
| DidKey.ZeroKeyIsRejected | app/util/did.py:10-14 | the all-zero 32-byte key is rejected by the length check |
| DidKey.RefusedExactly | app/util/did.py:10-22 | a key is refused for its length unless it has 43 or 44 characters, and else for its characters unless they are base58 digits, but for one trailing line feed |
| Tails.AcceptedExactly | tails/routers/tails.py:109-155 | an upload passes the checks iff it starts 00 02, its size is 2 modulo 128, its key is the base58 hash of its bytes and its first chunk has two bytes |
| Tails.ShortHeadIsRejected | tails/routers/tails.py:121-129 | every file whose first chunk is a single byte is rejected for its header, tails files included |
| Tails.StoredExactly | tails/routers/tails.py:94-173 | for every chunking whose first chunk has two bytes whenever the file does, the upload is stored iff no call to the bucket fails, the key is free and the file is well-formed and addressed by it |
| Tails.RefusedExactly | tails/routers/tails.py:94-189 | which refusal an upload gets: the key is taken, the header, the hash or the size is wrong, in this order, or a call to the bucket fails |
| Tails.TailsServer.ReadUpload | tails/routers/tails.py:112-138 | the chunk loop checks the first chunk, keeps exactly the bytes of the upload and hashes them as if at once |
| Tails.TailsServer.PutFileByHash | tails/routers/tails.py:81-189 | an upload ends with the verdict on the whole file, and changes the bucket only at its key and only if stored |
| Tails.TailsServer.GetFileByHash | tails/routers/tails.py:33-78 | a download streams exactly the stored bytes in full chunks but for the last, or reports that there is no such key |
| Tails.PutAlone | tails/routers/tails.py:81-189 | an upload on its own among racing ones ends with the same verdict and stores the same object as the route |
| Tails.StoreIsAddressed | tails/routers/tails.py:94-173 | however uploads race, every stored object is a tails file under the base58 form of its own hash |
| Tails.BytesChangeOnlyByCollision | tails/routers/tails.py:94-173 | a stored key stays, and old and new bytes under it have the same hash, so without collisions they never change |
| Text.SplitOfJoin | trustregistry/list_type.py:10-17 | splitting undoes joining iff the list is not empty and no part contains the separator |
| Text.JoinOfSplit | trustregistry/list_type.py:10-17 | joining undoes splitting, and the parts hold no separator |
| SchemaIds.ValidateAndSetValues | shared/models/trustregistry.py:39-99 | the validator's loop and branches fail and complete the fields as its specification says, on every dictionary of fields |
| SchemaIds.CheqdExactly | shared/models/trustregistry.py:51-72 | a cheqd schema is accepted iff a name and a version are given, and takes its DID from the id up to the first slash |
| SchemaIds.FirstFieldDecides | shared/models/trustregistry.py:55-94 | otherwise the first of did, name and version that is absent, null or holds a colon decides: an absent one leaves the id alone, which must have four parts, the others are errors |
| SchemaIds.FieldsMakeId | shared/models/trustregistry.py:74-85 | with all three fields given and free of colons the id is the one they make, and an id that is given must be it |
| SchemaIds.SplitCalc | shared/models/trustregistry.py:29-30 | splitting the printed id of colon-free parts gives the parts back |
| SchemaIds.CalcIsInjective | shared/models/trustregistry.py:29-30 | printing is injective on colon-free triples |
| SchemaIds.IdAloneRecovers | shared/models/trustregistry.py:86-99 | a schema built from the printed id alone recovers its triple |
| SchemaIds.RevalidateExactly | shared/models/trustregistry.py:39-99 | validating a schema again gives it back iff its fields agree with its id |
| SchemaIds.IdAloneExactly | shared/models/trustregistry.py:86-94 | from a non-cheqd id alone the validator accepts iff there are four parts, and the result is consistent iff the second is 2 |
| SchemaIds.IdAloneMayBeInconsistent | shared/models/trustregistry.py:86-94 | an accepted schema that a second validation rejects |
| SchemaIds.CredDefParts | app/services/acapy_ledger.py:43-50 | from a credential definition id with an embedded schema id, the schema id and the issuer are recovered |
| SchemaIds.CredDefBySequence | app/services/acapy_ledger.py:49-65 | from an id with a sequence number instead, the ledger's answer for that number is returned, and a missing or empty answer is an error |
| SchemaIds.CheqdIssuer | app/util/did.py:31-36 | the issuer of a cheqd id is what stands before the first slash |
| SchemaIds.SchemaIdByShape | app/services/acapy_ledger.py:39-65 | a cheqd id yields the empty schema id, eight parts yield the fourth to seventh, fewer than four raise, and any other number asks the ledger for the fourth |
| SchemaIds.SchemaIdCache.Fetch | app/services/acapy_ledger.py:10-65 | a hit answers from the cache, only successes are cached, and for ids that decide by themselves the cached answer equals the uncached one |
| SchemaRegistry.ParsedIsConsistent | trustregistry/registry/registry_schemas.py:42-57 | whatever a route parses has the requested id and fields that agree with it |
| SchemaRegistry.ParsesExactly | trustregistry/registry/registry_schemas.py:149-153 | a non-cheqd id parses iff it has exactly four parts, the second being 2 |
| SchemaRegistry.StoredRowsRevalidate | trustregistry/registry/registry_schemas.py:21-30 | in every reachable table each row agrees with its key, so validating it again, as listing does, gives it back |
| SchemaRegistry.UpdateMovesOneRow | trustregistry/registry/registry_schemas.py:70-110 | an update succeeds iff the row exists and the requested id is well-formed and free; it moves that row to that id and touches no other |
| SchemaRegistry.RegisterExactly | trustregistry/registry/registry_schemas.py:33-67 | a non-cheqd schema is registered iff its id is well-formed and free, adding exactly its row |
| SchemaRegistry.RegisterCheqdExactly | trustregistry/registry/registry_schemas.py:50-65 | how registering a cheqd schema ends, in terms of the resolver's answer and the table |
| SchemaRegistry.RegisterErrors | trustregistry/registry/registry_schemas.py:33-67 | how registering another schema is refused: too few parts, rejected by the validator, or already there |
| SchemaRegistry.UpdateErrors | trustregistry/registry/registry_schemas.py:70-110 | how an update is refused: same id, too few parts or a cheqd id, rejected by the validator, no such row, or the new id taken |
| SchemaRegistry.SchemaRoutes.RegisterSchema | trustregistry/registry/registry_schemas.py:33-67 | a cheqd schema is registered iff the resolver answers with a name and a version and the id is free, and its row has that name and version and the DID before the first slash; any other iff its id is well-formed and free, with the parts of the id; a rejected request leaves the table unchanged |
| SchemaRegistry.SchemaRoutes.UpdateSchema | trustregistry/crud.py:273-309 | the route moves the row to the key that the database computes from the new columns, which is the requested id; a rejected request leaves the table unchanged |
| SchemaRegistry.SchemaRoutes.RemoveSchema | trustregistry/crud.py:312-330 | a delete returns the row it removed, or reports that there is none |
| SchemaRegistry.SchemaRoutes.GetSchemas | trustregistry/registry/registry_schemas.py:21-30 | listing validates every row again; in a table whose rows agree with their keys it returns them as stored |
| StringList.ListSurvivesExactly | trustregistry/list_type.py:10-17 | a list survives the column iff it is not empty and its parts hold no comma |
| StringList.NullSurvives | trustregistry/list_type.py:10-17 | NULL stands for a missing list and only for that |
| StringList.EmptyListIsLost | trustregistry/list_type.py:10-17 | the empty list comes back as a list of one empty string |
| StringList.RolesSurvive | trustregistry/db.py:45 | every non-empty list of roles survives the column |
| TokenPayload.PaddingsAgree | app/util/string.py:13-16 | the two paddings agree iff the length is not 1 modulo 4, which no encoding has, and then reach a multiple of four |
| TokenPayload.UrlRoundTrip | app/util/string.py:19-20 | padding and URL-safe decoding give back every payload |
| TokenPayload.AlphabetOrder | app/util/tenants.py:42-49 | the standard and the URL-safe alphabet agree but for the last two digits |
| TokenPayload.TestVectors | app/util/string.py:19-20 | test vectors of section 10 of RFC 4648 |
| TokenPayload.StdDecodesExactly | app/util/tenants.py:42-49 | padding and standard decoding give back a payload iff none of its sextets is 62 or 63 |
| TokenPayload.AsciiPayloadExactly | app/util/tenants.py:42-49 | for an ASCII payload, it is read back iff no `>`, `?`, `~` or DEL ends a group of three |
| TokenPayload.CleanPayloadReadsBack | app/util/tenants.py:42-49 | every ASCII payload without `>`, `?`, `~` and DEL is read back |
| TokenPayload.QuestionMarkIsLost | app/util/tenants.py:42-49 | a payload that is not read back |
| Retry.WithRetry | app/util/retry_method.py:8-35 | the first call that does not raise decides, after exactly that many calls; otherwise all attempts are made and the last exception is raised |
| Retry.WithRetryUntilValue | app/util/retry_method.py:38-112 | the first call that returns the expected value decides; TimeoutError iff none of the attempts does |
| Revocation.LastFetchDecides | app/services/revocation_registry.py:78-97 | the first try that fails or fetches a revoked record decides the waiting; without one it is not confirmed |
| Revocation.FetchesBounded | app/services/revocation_registry.py:78-90 | at most five fetches are made for each try |
| Revocation.ConfirmedByLastFetch | app/services/revocation_registry.py:78-97 | a confirmation or failure comes only from the last try, all earlier ones having fetched an unrevoked record |
| Revocation.AwaitRevocation | app/services/revocation_registry.py:74-97 | the wait loop equals its specification in result and number of fetches |
| Revocation.RevokeCredential | app/services/revocation_registry.py:29-119 | at most 25 fetches; an id is reported iff the record fetched last is revoked, and none without publishing |
| Revocation.ValidateRevRegIds | app/services/revocation_registry.py:290-371 | returns iff every requested registry has a pending list with all its requested ids, for every map; else fails at the first entry that has not, with its status |
| Revocation.PublishPendingRevocations | app/services/revocation_registry.py:122-180 | the publish call goes out iff the request is valid, with exactly that request; an invalid entry's error or the failure of the call is passed on |

## Left out

- EventStreamProofs.ClientGetsFirstMatch: when the client disconnects at a yield, what was yielded last may have been a match that was not sent, so only the events before it are known not to match.
- EventStreamProofs.StreamTerminates: counts iterations with an integer clock; the time one fetch or one subscription retry takes is not bounded.
- TenantRoles.SerialRolesNeverShrink: assumes that requests for one wallet are serialised; without that it is false, and TenantRoles.RoleIsLostExactly says when.
- TenantRoutes.Cloud.CreateTenant: a request cancelled between two calls is not modelled, only calls that fail.
- Redelivery of unacknowledged messages within a subscription; subject wildcards other than a whole `*` token, and dots inside tokens.
- Cancellation outside a fetch, an acknowledgement or a resubscription, such as during the short sleeps of the fetch loop.
- The group check on wallets, unique wallet names, extra wallet settings, and the access token of a created tenant.
- The order of `list(set(...))`: roles are compared as sets without duplicates.
- Messages and status texts of constraint errors, and which unique column is blamed.
- The fields of a record that a revocation result must not lack, and the conversion of its id to a number; retry delays.
- The content type under a key, which racing uploads of the same bytes may change, and S3 errors in the middle of a response.
- The row limit of the list queries, and reading actors and schemas by id, name or DID.
- Onboarding an issuer or verifier is one call that yields a DID and an invitation or fails.
- FastAPI routing, Pydantic beyond the modelled validators, logging, JSON parsing, migrations and start-up: no invariant of their own.
- Tokens, signatures, API keys and JSON-LD; connections, credentials, proofs and messaging routes: foreign cryptography and field copying.
