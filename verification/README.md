# FocusBridge: a verified model of its protocols

FocusBridge links an Android phone to a desktop. These Dafny files model the parts of it that keep state over time or
between two programs, and prove what those parts promise. A component is modelled in up to three layers:

* specification functions on values, one per operation of the source, with the same branches, errors and constants;
* a class whose methods do what the source's object does, field by field, and whose contracts equate the new state
  with the specification function of the old one;
* laws about the specification functions: what each operation keeps, and theorems over every run (`Runs.dfy` holds the
  induction over runs all components share).

The components:

* **Account relay** (`AccountRelay*.dfy`): the per-account Durable Object of the relay worker. Its state is the pair
  rows, the sockets with their attachments, the provisioning budget and the alarm. A log of submitted frames and a
  list of spent tokens are history. An event is one handler up to its last storage access: a request that creates or
  revokes a pair, a join from its read after the asynchronous hash on, a message, a close, an alarm. A join can fail
  before the link, at the row update or after it, and a forward at each of its three steps. `AccountRelayExact` says
  of each decision when it is taken, `AccountRelayRuns` what holds over every run, and `AccountRelayTokens` ties each
  forwarded frame to the token it took.
* **Secure channel** (`Records`, `SecureSession`, `SessionLaws`, `SessionExchange`, `SessionObject`, `TwoParty`,
  `HonestRun`, `RecordRuns`, `RecordSync`): record fragmentation and reassembly, the session's phase machine with
  pins, budgets and ages, and an honest phone and desktop over a network that drops, repeats, reorders and invents.
  Cryptography is ideal: the handshake hash is the transcript, and a frame opens only in its own session, direction
  and counter (the Noise Protocol Framework, revision 34, sections 5.1, 7.5 and 9).
* **Fingerprint and desktop migration** (`ContentFingerprint`, `FingerprintDigest`, `Codes`, `Sorting`,
  `DesktopMigration*`): the digest of a database's content, and the migration of a plaintext database to an encrypted
  one with a backup kept until the two are compared. An attempt is a trace of file operations; a crash can fall after
  any of them.
* **Android migration** (`AndroidMigration*`): the same aim with an atomic replace instead of a backup.
* **Compact pairing code** (`Base64`, `PairingText`, `SocketText`, `CompactLayout`, `CompactCodec`, `CompactObject`,
  `PhoneCodec`, `PhoneObject`, `PairingWitnesses`): the binary form of the pairing QR code, its encoder and decoder on
  the desktop and the second decoder on the phone, down to hexadecimal, UUID, base64 (RFC 4648, sections 4 and 5),
  address and port text.
* **Store-and-forward relay** (`StoreAndForward*`): senders, the pending queue and the per-role message windows of a
  session. What was accepted, handed over, expired and evicted is history.
* **Heartbeat** (`Heartbeat`): the desktop's probes and its deadline.
* **Attaching** (`Admission`): which phone the desktop lets in, over its commands and its AUTH step.

## What was found

These follow from the code and differ from what its comments or tests suggest. Each has its exact condition in a
lemma.

* A refused request to create a pair rolls its rows back, but sockets the purge had closed by then stay closed. It
  changes nothing exactly when no open socket belongs to an expired pair (`AccountRelayExact.RefusalRollsBack`,
  `RefusalSilent`, and `RefusalCloses` for an input on which it does).
* A relay frame is ignored exactly when its socket is no longer open, and that does not end the generation
  (`AccountRelayExact.IgnoredExactly`). The prefix law still holds, since no open socket can send in that direction
  any more (`AccountRelayRuns.FramesDelivered`).
* Desktop: a crash while the export fills its file leaves a file that no later start reuses or discards, so each
  refuses until someone removes it (`DesktopMigration.ExportCutShort`, `WreckHappens`). A crash while a new database
  is created is refused for ever unless it fell before the key was written or after the first page was
  (`DesktopMigration.NewDatabase`).
* Android: the migration tolerates a zero-length rollback journal beside the staging file, but the check at the next
  start does not. With such a journal left behind, every later start is refused (`AndroidMigration.SecondStart`,
  `ColdJournalBlocks`, `EveryPhaseRecovers`).
* The pairing code's hexadecimal parser takes a plus sign as the first of two digits, and the port parser takes a plus
  sign and leading zeros. The round trip holds exactly for payloads written without them (`CompactCodec.RoundTrip`;
  `PairingWitnesses.PlusSignLost`, `PortSpellings`).
* The phone replaces bytes of a relay URL that are not UTF-8 where the desktop refuses the code; this is the only
  disagreement of the two decoders (`PhoneCodec.DecodersAgree`; `PairingWitnesses.StrayDisagrees`).
* With a pending queue of size 0 the store-and-forward relay answers Queued and keeps nothing; such a message counts
  as evicted (`StoreAndForwardLaws.RoutedExactly`).
* If the settings store cannot be written at a manual disconnect, the code it still holds revives and lets the phone
  just disconnected back in while it has not expired (`Admission.UnclearedCodeRevives`,
  `Admission.DisconnectMeansDisconnect`).

## Reading the contracts

A method's `ensures State() == F(old(State()))` ties the class to the specification function `F`; what `F` is good for
is in the lemmas listed with it. `requires SocketsLinked(State())` on relay methods is part of the invariant every
reachable state has: without it two open sockets could carry one id, and the source's search for a socket would be
ambiguous. `Tabled()` says that a relay without a table has no row. Words used below: a relay `Shrinks` when sockets
only close or lose their place, rows only disappear or are fenced, and nothing else moves; two session ends are
`Linked` when they agree on binding, counters and budgets used so far in one direction, and `InSync` when both are
also ready and at the same record boundary; a disk is `Resumable` when it holds no wreck of an earlier attempt.

## Model

| member | source | states |
|---|---|---|
| `Records.EncodeParses` | shared/secure-channel/src/lib.rs:418-424 | a fragment written with its 16-byte header parses back to itself |
| `Records.ParseEncodes` | shared/secure-channel/src/records.rs:29-44 | a header of at least 16 bytes is the encoding of what it parses to, so no two byte strings parse alike |
| `Records.ReassemblySound` | shared/secure-channel/src/records.rs:22-66 | contents accepted without an error are exactly the fragmentation of the records returned plus the fragments held of one more record; the next record number is the count of records |
| `Records.UnfinishedIsProperPrefix` | shared/secure-channel/src/records.rs:45-65 | the fragments held are a proper prefix of the fragmentation of every completion of that record |
| `Records.ReassemblyComplete` | shared/secure-channel/src/records.rs:22-66 | the fragments of any list of records, each record within 30 seconds of its first fragment, return exactly those records and leave nothing |
| `Records.Assembler.HasExpired` | shared/secure-channel/src/records.rs:18-21 | expired exactly 30 seconds or more after the first fragment of an unfinished record |
| `Records.Assembler.PushContents` | shared/secure-channel/src/records.rs:22-66 | the in-place assembler's new fields and reply are those of the specified push, error cases included |
| `SessionLaws.StartConsistent` | shared/secure-channel/src/lib.rs:139-180 | a session that could be created satisfies the session invariant |
| `SessionLaws.StepLaws` | shared/secure-channel/src/lib.rs:196-230 | every public call keeps the invariant (budgets, pins, nonces equal to counts, no secrets once closed); a phase change climbs the rank; an error closes; a closed session refuses everything and does not change |
| `SessionLaws.LivesExactly` | shared/secure-channel/src/lib.rs:207-234 | a session lives exactly while it is not closed, no record stalls for 30 seconds, and it is younger than two minutes, or a day once ready; otherwise every call closes it |
| `SessionExchange.EncryptDecrypt` | shared/secure-channel/src/lib.rs:367-408 | a frame the sender may encrypt decrypts to its plaintext at the linked receiver and leaves them linked |
| `SessionExchange.BudgetLockstep` | shared/secure-channel/src/lib.rs:367-408 | frames delivered in order all decrypt, however far the receiver lags, and then received counters equal sent ones |
| `SessionExchange.SealedRecordOpens` | shared/secure-channel/src/lib.rs:409-442 | the frames of one sealed record opened in order give None on all but the last and the record on the last; both ends stay in sync |
| `SessionExchange.RecordsExchanged` | shared/secure-channel/src/lib.rs:409-442 | the same for every list of records, with the ends' record counters equal at each boundary |
| `SessionExchange.OpenedInOrder` | shared/secure-channel/src/lib.rs:388-408 | frames opened without an error are this session's, from the other end, with consecutive counters |
| `SessionExchange.OpenedRecordsSound` | shared/secure-channel/src/lib.rs:434-442 | a list of open_frame calls without an error consumed exactly the fragmentation of the records it returned plus what is held of one more |
| `SessionObject.Session.Create` | shared/secure-channel/src/lib.rs:139-180 | creation gives the initial state, or refuses all-zero pre-shared keys, pair ids and pins |
| `SessionObject.Session.CloseSession` | shared/secure-channel/src/lib.rs:196-203 | closing clears handshake, transport, assembler, peer and binding and keeps the counters |
| `SessionObject.Session.Admit` | shared/secure-channel/src/lib.rs:212-225 | the guard refuses and closes a closed, over-age or stalled session, and otherwise changes nothing |
| `SessionObject.Session.WriteHandshake` | shared/secure-channel/src/lib.rs:235-252 | as specified: own turn only, the next token under this identity, then completion |
| `SessionObject.Session.ReadHandshake` | shared/secure-channel/src/lib.rs:253-284 | as specified: size limits, other's turn, empty payload, learned static key checked against the pin |
| `SessionObject.Session.Finish` | shared/secure-channel/src/lib.rs:285-317 | completion sets binding, transport and the phase the role and pin call for |
| `SessionObject.Session.ApproveEnrollment` | shared/secure-channel/src/lib.rs:320-332 | approval pins the peer only for the very peer and binding awaiting it |
| `SessionObject.Session.EncryptFrame` | shared/secure-channel/src/lib.rs:367-387 | as specified: size, message and byte budgets before the transport, counters after |
| `SessionObject.Session.DecryptFrame` | shared/secure-channel/src/lib.rs:388-408 | as specified: size and budgets, then the transport, then counters |
| `SessionObject.Session.WriteConfirmation` | shared/secure-channel/src/lib.rs:333-348 | sends the confirmation of its role over the binding and moves to the next phase |
| `SessionObject.Session.ReadConfirmation` | shared/secure-channel/src/lib.rs:349-366 | accepts only the other role's confirmation over the same binding |
| `SessionObject.Session.EncryptChunks` | shared/secure-channel/src/lib.rs:418-426 | the loop over chunks gives the frames and counters of encrypting them one after the other, stopping at the first refusal |
| `SessionObject.Session.Seal` | shared/secure-channel/src/lib.rs:409-433 | sealing gives the frames of the record's fragments and advances the record number, or an error that closes |
| `SessionObject.Session.Open` | shared/secure-channel/src/lib.rs:434-442 | opening decrypts and pushes, or an error that closes |
| `SessionObject.Session.CheckAlive` | shared/secure-channel/src/lib.rs:232-234 | closes a session past its age, and otherwise changes nothing |
| `TwoParty.NextSafe` | shared/secure-channel/src/lib.rs:235-442 | each call on either end keeps the two-party invariant, whatever the network delivers or invents |
| `TwoParty.EveryRun` | shared/secure-channel/src/lib.rs:235-442 | the invariant and the recorded history hold after every run |
| `TwoParty.DesktopReadyAfterPhone` | shared/secure-channel/src/lib.rs:333-366 | a ready desktop means the phone was ready at or before that point with the same binding, and each recorded the other's static key |
| `TwoParty.PhoneReadyVouchedFor` | shared/secure-channel/src/lib.rs:309-348 | a ready phone means the desktop had it pinned, or its user approved this phone for this very binding earlier in the run |
| `HonestRun.BothReady` | shared/secure-channel/src/lib.rs:235-366 | matching ends do get ready: some possible run ends with both ready over one binding, pinned or enrolling, and in sync in both directions |
| `RecordRuns.RecordsInOrder` | shared/secure-channel/src/lib.rs:367-442 | over every run, whatever the network drops, repeats, reorders or invents, the records one end returned are a prefix of those the other end took |
| `RecordSync.CaughtUp` | shared/secure-channel/src/lib.rs:367-442 | over every run, two ready ends whose counters have met in a direction are in sync in it, and every record taken was returned |
| `AccountRelayLaws.ShrinkLinked` | relay-worker/src/account.ts:129-140 | closing sockets, fencing or deleting pairs keeps rows and attachments linked |
| `AccountRelayExact.RefusalRollsBack` | relay-worker/src/account.ts:77-95 | a refused request to create a pair leaves rows, budget and alarm as they were and closes exactly the open sockets of the pairs that had expired |
| `AccountRelayExact.RefusalSilent` | relay-worker/src/account.ts:77-95 | so a refusal changes nothing but the table being there exactly when no open socket belongs to an expired pair |
| `AccountRelayExact.RefusalCloses` | relay-worker/src/account.ts:77-95 | an input on which it does: the pair limit is reached, the expired pair keeps its row, and the socket that row names is closed |
| `AccountRelayExact.MeetFinds` | relay-worker/src/account.ts:170-178 | in a linked state a joining role meets a peer exactly when its own column is empty and some open socket of the other role is admitted by the row |
| `AccountRelayExact.MeetAdmits` | relay-worker/src/account.ts:170-178 | whether a peer was met or the pair was fenced, the join is still authorized afterwards, and a peer met is open, of the other role and admitted |
| `AccountRelayLaws.MeetShrinks` | relay-worker/src/account.ts:170-178 | fencing what is stale before a join only closes sockets and clears columns, and removes no socket; a peer met is the one the other column names |
| `AccountRelayLaws.LinkLinked` | relay-worker/src/account.ts:183-196 | accepting a socket, naming it and telling its peer keeps rows and attachments linked, given fresh ids |
| `AccountRelayFrames.IgnoredEnds` | relay-worker/src/account.ts:215-218 | an ignored frame came from a socket no longer open, and its stream can send no more |
| `AccountRelayFrames.RetiredEnds` | relay-worker/src/account.ts:220-235 | fencing the sender's pair ends the stream of the frame that caused it |
| `AccountRelayFrames.ForwardMeans` | relay-worker/src/account.ts:213-241 | a frame is forwarded only between the two open sockets its live row names, each the other's peer, in the live generation, within size and with a token left |
| `AccountRelayFrames.MessageLogged` | relay-worker/src/account.ts:213-246 | every message, with a failure at any step, keeps the log's prefix law |
| `AccountRelayFrames.DeliveredIsPrefix` | relay-worker/src/account.ts:213-246 | in an ordered log the frames delivered in a generation and direction are a prefix of those submitted |
| `AccountRelayFrames.WindowBound` | relay-worker/src/account.ts:231-237 | any tokens i to j of a role cost no more than one full bucket and the budget clock between them |
| `AccountRelayFrames.MessageMetered` | relay-worker/src/account.ts:231-240 | every message keeps each bucket paid for by the tokens spent |
| `AccountRelayRuns.AlarmClears` | relay-worker/src/account.ts:255-266 | after an alarm no expired pair is left, and every open socket is admitted by its row at that time |
| `AccountRelayExact.ScheduledExactly` | relay-worker/src/account.ts:142-149 | an alarm is set exactly when there is a deadline; it lies in the future, no later than any deadline ahead, and is one of them, or the next millisecond if one has passed |
| `AccountRelayRuns.ProvisionKeeps` | relay-worker/src/account.ts:70-94 | creating a pair, or refusing to, keeps the whole invariant |
| `AccountRelayRuns.JoinKeeps` | relay-worker/src/account.ts:165-210 | a join, with a failure at any step, keeps the whole invariant |
| `AccountRelayRuns.MessageKeeps` | relay-worker/src/account.ts:213-246 | a message, with a failure at any step, keeps the whole invariant |
| `AccountRelayRuns.NextKeeps` | relay-worker/src/account.ts:51-266 | every event keeps the whole invariant: links, log, buckets, caps and alarm |
| `AccountRelayRuns.EveryRun` | relay-worker/src/account.ts:51-266 | the invariant holds in every reachable state |
| `AccountRelayRuns.RowsAndSocketsAgree` | relay-worker/src/account.ts:129-211 | in every reachable state a generation is set exactly when both columns are; attachments with those ids name each other and carry it; every open socket is the one its row names for its role, and no role has two |
| `AccountRelayRuns.FramesDelivered` | relay-worker/src/account.ts:213-251 | over every run each generation and direction delivers a prefix of what was submitted, from one sender to one receiver of one pair; once a frame was not delivered no open socket can send there |
| `AccountRelayRuns.TokensBounded` | relay-worker/src/account.ts:231-240 | over every run, reconnects and backward clock steps included, credits stay within the bucket and any tokens i to j satisfy 600 * (j - i + 1) <= 60000 + the budget clock between them |
| `AccountRelayTokens.ForwardsBounded` | relay-worker/src/account.ts:231-241 | over every run each forwarded frame took its own token: the forwards of a pair and role from one to another cost no more than one full bucket and the budget clock between their tokens |
| `AccountRelayExact.ForwardedExactly` | relay-worker/src/account.ts:213-241 | a frame of an open socket is forwarded exactly when it fits, its sender has a token and budget, and its pair has an admitted sender and an admitted open receiver: the other consistency checks cannot fail on their own |
| `AccountRelayExact.LoggedOnce` | relay-worker/src/account.ts:213-246 | each frame of an attached socket is logged once, as forwarded exactly when it was judged so and no step failed, and to the receiver judged |
| `AccountRelayExact.IgnoredExactly` | relay-worker/src/account.ts:215-218 | in a linked state a frame is ignored exactly when its socket is no longer open, and then no row changes |
| `AccountRelayExact.JoinedExactly` | relay-worker/src/account.ts:165-202 | a join goes through exactly when it is authorized, a socket is free and nothing fails; then its socket is admitted, unused and good for a day at most, any earlier socket of the role is closed, and it is paired exactly when its role had none and an admitted socket of the other role was open |
| `AccountRelayExact.ProvisionedExactly` | relay-worker/src/account.ts:77-94 | a pair is created exactly when fewer than ten are unexpired and the hour's budget of twenty is not used up; then exactly the unexpired pairs and the new, full and unjoined one are left |
| `AccountRelayObject.DurableRelay.FindSocket` | relay-worker/src/account.ts:116-118 | finds the one open socket of the pair that carries the id, or none |
| `AccountRelayObject.DurableRelay.RetirePair` | relay-worker/src/account.ts:129-133 | fences the row, then closes every socket of the pair, and changes nothing else |
| `AccountRelayObject.DurableRelay.PurgeExpired` | relay-worker/src/account.ts:135-140 | retires and deletes exactly the pairs expired by now |
| `AccountRelayObject.DurableRelay.ScheduleAlarm` | relay-worker/src/account.ts:142-149 | sets the alarm to the least deadline but not into the past, or deletes it when there is none |
| `AccountRelayObject.DurableRelay.ProvisionPair` | relay-worker/src/account.ts:70-94 | creates the pair within both limits, or answers 409 or 429 with the transaction rolled back |
| `AccountRelayObject.DurableRelay.RevokePair` | relay-worker/src/account.ts:63-68 | retires and deletes the pair, reschedules, and answers whether there was one |
| `AccountRelayObject.DurableRelay.MeetPeer` | relay-worker/src/account.ts:170-178 | finds the peer or fences a pair any part of which is stale |
| `AccountRelayObject.DurableRelay.AttachSocket` | relay-worker/src/account.ts:190-196 | accepts the socket, names it and the generation in its row, and links the peer to it |
| `AccountRelayObject.DurableRelay.Fetch` | relay-worker/src/account.ts:165-210 | a join's answer and new state, with the clean-up of each failure |
| `AccountRelayObject.DurableRelay.JudgeFrame` | relay-worker/src/account.ts:215-235 | the checks on a frame, in their order, and the verdict of the first that fails |
| `AccountRelayObject.DurableRelay.ForwardFrame` | relay-worker/src/account.ts:237-245 | charges, counts and sends; a failure at any of them closes every socket |
| `AccountRelayObject.DurableRelay.WebSocketMessage` | relay-worker/src/account.ts:213-246 | a message's new state in full |
| `AccountRelayObject.DurableRelay.WebSocketClose` | relay-worker/src/account.ts:248-253 | a close retires the pair only if its row still names this socket |
| `AccountRelayObject.DurableRelay.AlarmFires` | relay-worker/src/account.ts:255-266 | sweeps lapsed sockets one by one, purges and reschedules; the loop's order does not matter to the result |
| `ContentFingerprint.RowDecodes` | desktop/src-tauri/src/db/encrypted.rs:596-618 | two rows hashed as the same bytes are the same row: tags and lengths make the stream uniquely decodable |
| `ContentFingerprint.StreamDecodes` | desktop/src-tauri/src/db/encrypted.rs:556-627 | equal digest streams mean equal pragmas, schema texts and sorted row hashes per table |
| `ContentFingerprint.DigestsCount` | desktop/src-tauri/src/db/encrypted.rs:594-625 | sorted row hashes agree exactly when the rows do with their multiplicity |
| `ContentFingerprint.StreamsAgree` | desktop/src-tauri/src/db/encrypted.rs:556-627 | streams are equal exactly when the contents are, if the hash does not collide on the rows at hand |
| `ContentFingerprint.FingerprintsAgree` | desktop/src-tauri/src/db/encrypted.rs:556-633 | fingerprints are equal exactly when pragmas, schema (NULL and empty SQL identified) and each table's multiset of typed rows are, without a hash collision among what was hashed |
| `Sorting.SortCanonical` | desktop/src-tauri/src/db/encrypted.rs:621-621 | sorting forgets the order and keeps every multiplicity |
| `FingerprintDigest.HashBytes` | desktop/src-tauri/src/db/encrypted.rs:630-633 | feeds the length and then the bytes |
| `FingerprintDigest.HashRow` | desktop/src-tauri/src/db/encrypted.rs:596-619 | the loop over columns computes the digest of the row's encoding |
| `FingerprintDigest.FeedSchema` | desktop/src-tauri/src/db/encrypted.rs:574-626 | the loop over schema entries feeds each entry and, for a table, its sorted row hashes |
| `FingerprintDigest.FingerprintOf` | desktop/src-tauri/src/db/encrypted.rs:556-628 | the nested loops over a running digest compute the specified fingerprint |
| `DesktopMigration.AttemptSound` | desktop/src-tauri/src/db/encrypted.rs:124-175 | every disk an attempt passes through is safe; it succeeds only with the copy alone left; from a resumable disk it succeeds or leaves one; from any other it refuses and touches no file |
| `DesktopMigration.OriginalKept` | desktop/src-tauri/src/db/encrypted.rs:331-389 | after any number of starts, each cut short after any file operation, the database or the backup holds the whole original; the plaintext is gone only if the database is the compared copy and nothing else is left |
| `DesktopMigration.RestartCompletes` | desktop/src-tauri/src/db/encrypted.rs:331-389 | from any such point an uninterrupted start whose engine leaves no journal succeeds exactly when the disk is resumable, and then leaves only the encrypted copy; otherwise no file changes at any step |
| `DesktopMigration.EveryStageRecovers` | desktop/src-tauri/src/db/encrypted.rs:97-113 | made to fail at any of the six stages, the migration is finished by the next start that leaves no journal |
| `DesktopMigration.CopyIsContent` | desktop/src-tauri/src/db/encrypted.rs:500-514 | with a fingerprint that does not collide, the copy left has exactly the content of the original |
| `DesktopMigration.ExportCutShort` | desktop/src-tauri/src/db/encrypted.rs:401-436 | after a crash at any point at which the candidate is there but is no copy yet, every later start, cut short or not, is refused and leaves every file as it is, the original in place |
| `DesktopMigration.WreckStays` | desktop/src-tauri/src/db/encrypted.rs:331-389 | more generally a disk that is safe but not resumable stays so: no later start succeeds and no file changes |
| `DesktopMigration.WreckHappens` | desktop/src-tauri/src/db/encrypted.rs:401-412 | an input on which it happens: a first migration stopped after its second file operation leaves an unfinished candidate |
| `DesktopMigration.JournalDelays` | desktop/src-tauri/src/db/encrypted.rs:500-514 | an attempt whose engine leaves a journal behind fails, and the next one without is finished |
| `DesktopMigration.NewDatabase` | desktop/src-tauri/src/db/encrypted.rs:155-168 | creating a new database survives a crash exactly when it falls before the key is written or after the first page is |
| `DesktopMigrationObject.Migrator.VerifyExport` | desktop/src-tauri/src/db/encrypted.rs:500-514 | accepts exactly if the file is encrypted, its fingerprint is the expected one, and closing it left no journal; the closed file is the new state either way |
| `DesktopMigrationObject.Migrator.MoveWithoutReplace` | desktop/src-tauri/src/db/encrypted.rs:651-682 | moves only onto a free name |
| `DesktopMigrationObject.Migrator.Export` | desktop/src-tauri/src/db/encrypted.rs:401-436 | fills the candidate step by step and leaves the original alone |
| `DesktopMigrationObject.Migrator.OpenEncrypted` | desktop/src-tauri/src/db/encrypted.rs:378-387 | an encrypted main file: cleans up a backup, or refuses leftovers, as specified |
| `DesktopMigrationObject.Migrator.CreateOrResume` | desktop/src-tauri/src/db/encrypted.rs:340-377 | no main file: installs a candidate that has a backup, or goes on to create a database, as specified |
| `DesktopMigrationObject.Migrator.CleanupBackup` | desktop/src-tauri/src/db/encrypted.rs:534-552 | compares the published copy with the backup again before removing it |
| `DesktopMigrationObject.Migrator.Install` | desktop/src-tauri/src/db/encrypted.rs:516-532 | verifies the candidate against the backup, publishes it, and cleans up |
| `DesktopMigrationObject.Migrator.Prepare` | desktop/src-tauri/src/db/encrypted.rs:331-389 | takes the steps of the migration in their order for each kind of main file |
| `DesktopMigrationObject.Migrator.Initialize` | desktop/src-tauri/src/db/encrypted.rs:124-175 | the file operations of one start, in their order, are those of the specified attempt |
| `AndroidMigration.AttemptSound` | android/app/src/main/java/com/focusbridge/android/storage/EncryptedDatabaseMigrator.kt:34-132 | every disk an attempt passes through is safe; it succeeds only with the copy in place, and on every resumable disk; on any other it refuses and changes nothing |
| `AndroidMigration.PathHolds` | android/app/src/main/java/com/focusbridge/android/storage/EncryptedDatabaseMigrator.kt:65-132 | after any number of starts cut short anywhere, the database path holds the original or an encrypted copy with the same snapshot |
| `AndroidMigration.RestartCompletes` | android/app/src/main/java/com/focusbridge/android/storage/EncryptedDatabaseMigrator.kt:34-132 | from there an uninterrupted start succeeds exactly when the disk is resumable, leaving the copy and no staging file; otherwise it changes nothing |
| `AndroidMigration.SecondStart` | android/app/src/main/java/com/focusbridge/android/storage/EncryptedDatabaseMigrator.kt:46-53 | the start after a completed migration succeeds exactly if no cold journal was left beside the staging name |
| `AndroidMigration.ColdJournalBlocks` | android/app/src/main/java/com/focusbridge/android/storage/EncryptedDatabaseMigrator.kt:46-49 | once such a journal is left, every later start refuses and changes nothing |
| `AndroidMigration.EveryPhaseRecovers` | android/app/src/main/java/com/focusbridge/android/storage/EncryptedDatabaseMigrator.kt:86-131 | made to fail at any of the six phases, the migration is finished by the next start, except after the rename with a cold journal left |
| `AndroidMigrationObject.EncryptedDatabaseMigrator.GetOrCreateKey` | android/app/src/main/java/com/focusbridge/android/security/DatabaseKeyStore.kt:31-65 | uses the record there is, refuses a missing one where encrypted data or staging exists, and otherwise writes one |
| `AndroidMigrationObject.EncryptedDatabaseMigrator.CheckpointSource` | android/app/src/main/java/com/focusbridge/android/storage/EncryptedDatabaseMigrator.kt:66-86 | folds the sidecars into the source without changing its content, or stops |
| `AndroidMigrationObject.EncryptedDatabaseMigrator.DeleteArtifacts` | android/app/src/main/java/com/focusbridge/android/storage/EncryptedDatabaseMigrator.kt:89-92 | the loop removes the staging file and its sidecars and nothing else |
| `AndroidMigrationObject.EncryptedDatabaseMigrator.ExportCopy` | android/app/src/main/java/com/focusbridge/android/storage/EncryptedDatabaseMigrator.kt:93-119 | fills and reopens the staging file, and goes on only if its snapshot equals the source's |
| `AndroidMigrationObject.EncryptedDatabaseMigrator.ReplaceOriginal` | android/app/src/main/java/com/focusbridge/android/storage/EncryptedDatabaseMigrator.kt:120-131 | replaces the source in one rename, after the last checks |
| `AndroidMigrationObject.EncryptedDatabaseMigrator.Prepare` | android/app/src/main/java/com/focusbridge/android/storage/EncryptedDatabaseMigrator.kt:34-63 | the file operations of one start, in their order, are those of the specified attempt |
| `Base64.DecodeEncode` | desktop/core/src/qr.rs:312-319 | both decoders read back every byte string written unpadded in their alphabet |
| `Base64.EncodeDecode` | desktop/core/src/qr.rs:312-319 | the strict decoder accepts only text the encoder writes |
| `Base64.DecodeEitherEncoded` | desktop/core/src/qr.rs:310-319 | whichever alphabet a value was written in, and padded or not, it is read back |
| `Base64.AlphabetsAgree` | desktop/core/src/qr.rs:313-317 | text in both alphabets is read the same in either, so the order they are tried in does not matter |
| `PairingText.HexRoundTrip` | desktop/core/src/qr.rs:295-308 | lower-case hexadecimal text of any bytes is read back |
| `PairingText.HexCanonical` | desktop/core/src/qr.rs:295-308 | accepted hexadecimal text is given back exactly when it is lower case without plus signs |
| `PairingWitnesses.PlusSignLost` | desktop/core/src/qr.rs:295-304 | every payload the encoder accepts has one with a plus sign in its pairing key, which is accepted as well and does not come back as it went in |
| `PairingWitnesses.PortSpellings` | desktop/core/src/qr.rs:272-276 | "+1", "01" and "1" are all read as port 1, which is shown as "1" |
| `PairingText.UuidRoundTrip` | desktop/core/src/qr.rs:278-293 | the text of any 16 bytes is read back |
| `PairingText.UuidCanonical` | desktop/core/src/qr.rs:278-293 | an accepted UUID is given back exactly when it is lower case with its hyphens in their places |
| `PairingText.DecimalCanonical` | desktop/core/src/qr.rs:272-276 | a number's digits are given back exactly when they have no leading zero |
| `SocketText.IpRoundTrip` | desktop/core/src/qr.rs:272-276 | the text of any IPv4 address is read back |
| `SocketText.IpCanonical` | desktop/core/src/qr.rs:275-275 | an address that parses is written in the one way it is printed |
| `SocketText.SocketRoundTrip` | desktop/core/src/qr.rs:200-202 | the text of any address and port is read back |
| `SocketText.SocketCanonical` | desktop/core/src/qr.rs:272-276 | an accepted candidate is given back exactly when its port has neither sign nor leading zero |
| `SocketText.SocketsApart` | desktop/core/src/qr.rs:200-202 | different addresses or ports are shown as different candidates |
| `CompactLayout.ReadOnto` | desktop/core/src/qr.rs:186-229 | a layout written in front of anything is read back, leaving the rest |
| `CompactLayout.OntoRead` | desktop/core/src/qr.rs:186-229 | whatever is read was written, in the only way there is |
| `CompactLayout.NoPrefix` | desktop/core/src/qr.rs:226-229 | no whole code is a proper prefix of another |
| `CompactCodec.DecodeEncoded` | desktop/core/src/qr.rs:128-243 | whatever the encoder accepts decodes, to the text of the fields it parsed |
| `CompactCodec.RoundTrip` | desktop/core/src/qr.rs:128-243 | decoding an encoded payload gives it back, candidates deduped with the endpoint first, exactly when its fields are canonical |
| `CompactCodec.DedupeKeeps` | desktop/core/src/qr.rs:156-162 | deduping keeps the first occurrences, and everything exactly when nothing repeats |
| `CompactCodec.EncodeDecoded` | desktop/core/src/qr.rs:128-243 | re-encoding gives back an accepted code exactly when its flag byte is 0 or 1 and no candidate repeats |
| `CompactCodec.CodesApart` | desktop/core/src/qr.rs:186-243 | no accepted code is a proper prefix of another |
| `CompactObject.CompactCursor.TakeBytes` | desktop/core/src/qr.rs:257-261 | takes the next bytes and moves past them, or takes none and does not move when too few are left |
| `CompactObject.FillHex` | desktop/core/src/qr.rs:295-304 | the array filled two characters at a time holds the parsed bytes |
| `CompactObject.DistinctCandidates` | desktop/core/src/qr.rs:157-162 | the loop collects the endpoint and the candidates, each once, in order of first occurrence |
| `CompactObject.EncodeCompact` | desktop/core/src/qr.rs:128-181 | the appending encoder gives the specified code, or none |
| `CompactObject.DecodeCompact` | desktop/core/src/qr.rs:186-243 | the cursor-driven decoder gives the specified payload, or none |
| `PhoneCodec.CodeByPlace` | android/app/src/main/java/com/focusbridge/android/pairing/PairingManager.kt:205-245 | the phone reads exactly the codes whose fields lie within them and fill them |
| `PhoneCodec.HexAgrees` | android/app/src/main/java/com/focusbridge/android/pairing/PairingManager.kt:279-279 | signed bytes are shown as the same hexadecimal text as on the desktop |
| `PhoneCodec.DecodersAgree` | android/app/src/main/java/com/focusbridge/android/pairing/PairingManager.kt:205-258 | on every byte string both decoders refuse or give the same payload, exactly unless the phone accepts a relay URL that is not UTF-8 |
| `PairingWitnesses.StrayDisagrees` | android/app/src/main/java/com/focusbridge/android/pairing/PairingManager.kt:232-232 | a code of 235 bytes, with a relay URL of the one byte 255, that the phone accepts and the desktop refuses |
| `PhoneCodec.LinkDelivers` | android/app/src/main/java/com/focusbridge/android/pairing/PairingManager.kt:205-258 | the text the desktop puts in its link gives the phone the payload, candidates deduped, exactly when it is canonical |
| `PhoneObject.CompactReader.TakeBytes` | android/app/src/main/java/com/focusbridge/android/pairing/PairingManager.kt:267-272 | takes the next bytes, or refuses and does not move |
| `PhoneObject.DecodeCompactPayload` | android/app/src/main/java/com/focusbridge/android/pairing/PairingManager.kt:211-258 | the reader-driven decoder gives the specified payload, or none |
| `StoreAndForwardLaws.FrontIsFilter` | relay/src/session.rs:39-48 | in a queue sorted by time, dropping stale messages from the front is filtering the whole queue |
| `StoreAndForwardLaws.NextOk` | relay/src/relay.rs:37-171 | every attach, detach and route keeps the invariant of every session |
| `StoreAndForwardLaws.MessagesKept` | relay/src/relay.rs:37-157 | over every run each accepted message is in exactly one of handed over, pending, expired and evicted; what was handed over, followed by the queue, is in order of acceptance with none twice |
| `StoreAndForwardLaws.QueueBounded` | relay/src/relay.rs:54-68 | over every run the queue stays within its cap, is empty while a desktop is attached, and front-only expiry is filtering |
| `StoreAndForwardLaws.MinuteBound` | relay/src/session.rs:63-78 | among any 2 * limit + 1 admitted messages in a row the last is a minute or more after the first |
| `StoreAndForwardLaws.WindowBound` | relay/src/session.rs:63-78 | no window admits more than the limit |
| `StoreAndForwardLaws.RateKept` | relay/src/session.rs:63-78 | both bounds hold for each role over every run, however often it reconnects |
| `StoreAndForwardLaws.RoutedExactly` | relay/src/relay.rs:126-157 | when each answer to a phone's message is given and what it means: Delivered is handed over last, Queued waits last or is evicted at cap 0, only these are accepted, and only a full queue evicts |
| `StoreAndForwardLaws.RepliedExactly` | relay/src/relay.rs:126-170 | when a desktop's message is delivered or dropped; a drop forgets the phone's channel, and no answer touches the queue |
| `StoreAndForwardObject.SessionCell.Expire` | relay/src/session.rs:39-48 | drops exactly the stale front of the queue |
| `StoreAndForwardObject.SessionCell.Enqueue` | relay/src/session.rs:50-61 | appends, evicting the oldest at the cap, or keeps nothing at cap 0 |
| `StoreAndForwardObject.SessionCell.AllowMessage` | relay/src/session.rs:63-78 | admits while the role's window has room and renews a window a minute old |
| `StoreAndForwardObject.SessionCell.FlushPending` | relay/src/relay.rs:57-67 | hands the queue over in order until the desktop's channel closes, which leaves the rest and no desktop |
| `StoreAndForwardObject.SessionCell.Attach` | relay/src/relay.rs:43-70 | attaches only with the session's key; a desktop first gets what waits |
| `StoreAndForwardObject.SessionCell.Detach` | relay/src/relay.rs:78-87 | clears the sender only if this channel still owns it |
| `StoreAndForwardObject.SessionCell.SendDesktop` | relay/src/relay.rs:141-157 | delivers, or queues when there is no desktop or its channel is closed, or refuses an oversize body |
| `StoreAndForwardObject.SessionCell.SendAndroid` | relay/src/relay.rs:159-170 | delivers or drops, or refuses an oversize body |
| `StoreAndForwardObject.SessionCell.RouteFrom` | relay/src/relay.rs:126-137 | ownership, then the rate, then the direction |
| `Heartbeat.ProbeExactly` | desktop/src-tauri/src/server/heartbeat.rs:56-83 | after every run a probe is sent exactly from the announced wake-up time on, and probing never moves the deadline |
| `Heartbeat.ProbesSpaced` | desktop/src-tauri/src/server/heartbeat.rs:56-74 | consecutive probes are at least 15 seconds apart |
| `Heartbeat.AnswersOnce` | desktop/src-tauri/src/server/heartbeat.rs:91-103 | each token is answered at most once, and only before it lapses |
| `Heartbeat.AnswersExactly` | desktop/src-tauri/src/server/heartbeat.rs:91-96 | after every run an answer counts exactly when it carries the last token sent, none to it counted before, and it has not lapsed |
| `Heartbeat.TokensDistinct` | desktop/src-tauri/src/server/heartbeat.rs:69-70 | sequence numbers below 2^64 make different tokens |
| `Heartbeat.DeadlineIsLatest` | desktop/src-tauri/src/server/heartbeat.rs:45-54 | the deadline is 90 seconds after the latest of the start, the frames seen and the answers that counted |
| `Heartbeat.LatestIs` | desktop/src-tauri/src/server/heartbeat.rs:50-54 | that latest time is one of them and none is later |
| `Heartbeat.PeerHeartbeat.Mark` | desktop/src-tauri/src/server/heartbeat.rs:50-54 | last_seen only moves forward |
| `Heartbeat.PeerHeartbeat.SendIfDue` | desktop/src-tauri/src/server/heartbeat.rs:56-74 | the token and the new fields of a probe |
| `Heartbeat.PeerHeartbeat.Pong` | desktop/src-tauri/src/server/heartbeat.rs:91-103 | an answer counts only for the outstanding token before it lapses |
| `Admission.RuleLaws` | desktop/core/src/attach.rs:51-69 | the allowance is spent only where nothing else would admit; while paused only the code on screen or the allowance admit |
| `Admission.NextFenced` | desktop/src-tauri/src/state.rs:521-553 | after a disconnect no command and no refused AUTH lifts the pause, grants an approval or brings back a code from before |
| `Admission.DisconnectMeansDisconnect` | desktop/src-tauri/src/state.rs:521-553 | after a manual disconnect, the first phone let in without an explicit request presents a live code never on screen before it; only if the store write failed may that be the unexpired code the store still holds |
| `Admission.UnclearedCodeRevives` | desktop/src-tauri/src/state.rs:460-489 | where the write failed, the phone holding the stored code is let in exactly while it has not expired; where it succeeded, never |
| `Admission.SenderIsLast` | desktop/src-tauri/src/state.rs:559-588 | after every run the sender is the channel of the last phone let in that has neither ended nor been disconnected since, and there is none exactly when there is no such phone |
| `Admission.ReplacedEndsNothing` | desktop/src-tauri/src/server/ws_server.rs:468-497 | a socket replaced by another phone at some point of a run, and not let in again since, changes nothing when it ends and announces nothing |
| `Admission.NoticesAlternate` | desktop/src-tauri/src/state.rs:326-362 | over every run notices of coming and going alternate, and the announced flag is whether the last was a coming |
| `Admission.AppState.CurrentPairing` | desktop/src-tauri/src/state.rs:450-489 | recovers an unexpired stored code when none is in memory |
| `Admission.AppState.SetPairing` | desktop/src-tauri/src/state.rs:416-438 | keeps the code in memory, and in the store if the write succeeds |
| `Admission.AppState.GeneratePairingQr` | desktop/src-tauri/src/commands/pairing_cmd.rs:126-199 | shows a code with more than 30 seconds left again, and otherwise mints one for five minutes; it never lifts a pause |
| `Admission.AppState.MarkManualDisconnect` | desktop/src-tauri/src/state.rs:521-553 | pauses and clears code, allowance, approval, loss time, announcement and sender |
| `Admission.AppState.RequestDeviceReconnect` | desktop/src-tauri/src/commands/pairing_cmd.rs:354-389 | asks a live phone, or lifts the pause and grants the allowance if there is a relay pair |
| `Admission.AppState.Admit` | desktop/src-tauri/src/server/ws_server.rs:290-302 | takes the allowance only when every condition before it has failed |
| `Admission.AppState.DecideAuth` | desktop/src-tauri/src/server/ws_server.rs:240-329 | the code on screen ends a pause; an admitted phone is approved and becomes the sender; a refusal is noted |
| `Admission.AppState.HandleAuth` | desktop/src-tauri/src/server/ws_server.rs:227-336 | one AUTH from the key lookup to the sender slot, and whether it was admitted |
| `Admission.AppState.SocketEnded` | desktop/src-tauri/src/server/ws_server.rs:468-497 | only the current socket clears the slot; an unasked loss starts the grace |
| `Admission.AppState.EndReconnectGrace` | desktop/src-tauri/src/state.rs:349-354 | ends only the grace of the loss it was started for |

## Left out

Assumptions and parameters:

- Cryptography is ideal: Noise, AES-GCM, SHA-256, TLS, the platform key stores and secure randomness are replaced by injective or fresh values. Where a hash is used, `NoCollision` is asked only of what was hashed.
- Public keys are the names of their holders, and a party's ephemeral key is fixed when its session is created.
- Each session call reads the clock once; the source reads it again inside the assembler.
- `TwoParty.EveryRun`: one session on each side. Sessions that share long-term keys with others are not modelled.
- Relay worker: HTTP routing, header and bearer checks, the request that lists pairs, and close codes. Attachments that fail their own type checks appear only as missing ones. Sending and closing on an open socket does not throw except at the modelled points of a join and of a forward.
- A SQL engine, SQLCipher's export, rowid preservation and pragmas: a database is pragmas, schema entries and rows. An export either fills its file with some database or is cut short.
- Desktop migration: the process lock, the registry of open databases, path normalization, links and directories under database names, I/O errors other than a crash or the six stages, and older programs that write during the migration. Of move_without_replace both forms are modelled, the one-step move and the portable link-then-remove, chosen once for each start.
- Desktop migration: after an attempt the engine either has removed its journals or leaves those there were and the one of the export; it does not invent one beside a file it never opened.
- The file database_key.rs is not part of this model: the key record is a file that loading creates when allowed to.
- Android migration: the snapshot is a parameter, equal for equal databases. Its own loops and digests are not modelled, nor are version limits and integrity checks beyond their yes or no.
- `PhoneCodec.LinkDelivers`: starts from the base64url text in the link. URI parsing, and the JSON form used when there is no compact one, are not modelled.
- The JVM's replacement of invalid UTF-8 is a parameter that is applied only to invalid text.
- Store-and-forward relay: authentication, the WebSocket tasks, and the map of sessions as a concurrent structure; each call is one step under its session's lock, and time does not go backwards.
- `Heartbeat.ProbesSpaced`: nondecreasing times and fewer than 2^64 probes, as are the other laws over heartbeat runs.
- `Admission.DisconnectMeansDisconnect`: fresh keys, each command and each AUTH one atomic step. A restart clears what is held in memory, so the law is about one run of the program.
- Sending to the phone, diagnostics, enrolment over the relay and the saved-device table are inputs of the attach steps.

Not modelled because it would only add easy members: user interface, Android services and permissions, QR image
rendering, notification scoring and labels, lock timeouts, e-mail checks, metrics, logging, and clearing of memory.
