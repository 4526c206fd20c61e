# A verified model of ScadBuddy's coordination and storage code

ScadBuddy's services coordinate through Temporal and Postgres: pods of a versioned worker roll
builds out and drain, replicas share a credential table and a test lock, processes agree on the
data keys that seal a session's payloads. Beside that, single processes parse and print bytes:
ZIP archives, sealed envelopes, bounded listings of untrusted tools. This project models the code
where a mistake would be silent, and proves what it promises of every run or every input.

`dafny verify dfyconfig.toml` checks all of it.

## What is modelled

- **Drain** (`Drain.dfy`): the pods of one build, each on its own clock, stopping, marking, pruning
  marks, listing pollers and leaving early, as atomic steps over Temporal's metadata and pollers.
- **Rollout** (`Rollout.dfy`): the make-current loops of any number of replicas over one deployment
  and its conflict token.
- **Lock client and test lock** (`LockClient.dfy`, `TestLock.dfy`): generations and leases of one
  replica's connections; then any number of replicas over Postgres's re-entrant session locks.
- **Listings** (`Json.dfy`, `Listings.dfy`, `ListingFields.dfy`, `ListingClean.dfy`,
  `ListingLosses.dfy`, `ListingCaps.dfy`, `ListingSteps.dfy`, `ListingTotal.dfy`, `ListingTools.dfy`): JSON text as
  section 7 of RFC 8259 has it, the caps of one tool and of a whole listing as functions with their
  promises proved, and the in-place trimming proved to compute them.
- **ZIP** (`Bytes.dfy`, `Zip.dfy`): the writer's buffers and the reader's cursor, byte for byte, in
  the layout of sections 4.3.7, 4.3.12 and 4.3.16 of APPNOTE.TXT.
- **Secrets and credentials** (`Secrets.dfy`, `CredentialAad.dfy`, `Health.dfy`, `Credentials.dfy`,
  `Rotation.dfy`, `AiStatus.dfy`): the sealed format, the context a credential is bound to, the
  health columns, the table with its dense order, key rotation by several pods, and the status.
- **Payloads** (`Subjects.dfy`, `KeyCache.dfy`, `PayloadKeys.dfy`, `PayloadCodec.dfy`,
  `PayloadStore.dfy`): which subject a workflow's payloads belong to, one key per subject among any
  number of processes, the codec and the content-addressed store.
- **Rate limits** (`RateLimit.dfy`), **routes** (`Routes.dfy`) and **access** (`OffCalls.dfy`,
  `Overrides.dfy`, `Loadings.dfy`, `Capabilities.dfy`; `JsText.dfy` and `TextOrder.dfy` hold JavaScript's
  `trim` and `sort`).

Postgres statements and transactions, and Temporal calls, are atomic steps; between two of them any
other step may come. AES-GCM, DEFLATE, UTF-8, HMAC, SHA-256, URL normalisation, Unicode folding and
the serialised form of a payload are function parameters with the laws the code relies on.

## What was found

- **Drain marks and clocks.** The slack for clock differences is enough for two pods. With three it is
  not: p may prune q's mark by p's clock while r still lists q as a poller by its own, so two
  differences add up (`Drain.SlackIsNotEnough`). `Drain.SafeExactly` gives the exact bound, for any number
  of pods and with the time their calls take.
- **Saves during a key rotation.** `rewrapFrom` looks only at a row's key id when it updates. A save that
  still seals under the previous key (an old pod in a rolling deployment), between the read and the
  update, gets the older data key put beside its secret, which then opens under no key
  (`Rotation.SaveUnderPreviousLoses`). `Rotation.UpdateOpensIff` says exactly when it still opens.
- **The grace after a rate limit's reset** is lost when midnight, or the new year, falls within it
  (`RateLimit.GraceLostAtMidnight`, `RateLimit.AsDescribedIff`, `RateLimit.DatedGrace`).
- **How long a forgotten subject opens elsewhere.** The documented 30 s run from when a reader caches
  the key, not from the tombstone (`PayloadKeys.ForgottenStillOpens`). They hold if and only if no call
  has the subject's row in hand at the tombstone (`PayloadKeys.OpensAfterForget`).
- **A test whose connection drops** runs on, while Postgres has freed its lock
  (`TestLock.DroppedConnectionFreesTheLock`); that is the only way a second one of its key can start
  (`TestLock.SecondTestIff`).
- **Route patterns** refuse a sibling's literal even where that sibling does not fit the rest of the
  path, so a request of one known route's shape can be taken by none (`Routes.FitsButTakenByNone`);
  `Routes.TakenByNoneIff` says exactly when.

## Model

| member | source | states |
|---|---|---|
| Drain.NeverAllLeaveEarly | backend/scadbuddy/worker.py:592-687 | in every run of any number of pods of one build, with clocks and delays as `ClocksAgree` has them and delays shorter than the grace, they never all leave their pinned runs to one another |
| Drain.SafeExactly | backend/scadbuddy/worker.py:177-181 | that holds of all runs if and only if for every marker, pruner and lister the two clock differences and the delay together are within the slack |
| Drain.SafeNeeds | backend/scadbuddy/worker.py:177-181 | whatever checks and marks may take, safety of all runs needs that bound with every delay they can have under the grace, and with any at all where one pod prunes and lists |
| Drain.SlackIsEnough | backend/scadbuddy/worker.py:177-181 | clocks pairwise within the slack less the delay suffice for two pods, within half of that for any number |
| Drain.SlackIsNotEnough | backend/scadbuddy/worker.py:177-181 | pairwise within the slack does not suffice for three: a run in which all leave early |
| Drain.BadRun | backend/scadbuddy/workflows/client.py:356-505 | wherever the bound is broken, a run in which the marker, the pruner and the lister all leave early: by a late write that prunes a new mark for an old one where they are three |
| Drain.TrustsOnlyThePresent | backend/scadbuddy/worker.py:643-687 | a pod that leaves early relies on another that has not left early by then: no mark is ignored or pruned while its owner can still be listed |
| Drain.LeavesEarlyOnlyIf | backend/scadbuddy/worker.py:632-687 | a pod that left early went, in one drain and in this order, through states of the run in which its mark was written, its build was current with the grace over, another pod had polled within its minute, and that pod had no mark in force |
| Drain.SupersededDrainInFull | backend/scadbuddy/worker.py:632-653 | once another build is current and stays so, no pod leaves early but one whose grace was over by then: the usual rollout drains in full |
| Drain.DrainLoop | backend/scadbuddy/worker.py:355-393 | "drained" if and only if some answer in time was drained and none before it ended the drain, "current" if and only if the same holds of an answer past the grace; else the cut itself ended it, at the second signal or the bound |
| Rollout.NeverTakesOver | backend/scadbuddy/worker.py:396-493 | over the steps of every run: a write after the loop's first answered read replaces no build, its own, or the one current at that read, so never a build that became current since |
| Rollout.NeverTakesBack | backend/scadbuddy/worker.py:396-493 | the same of the effects recorded in any reachable state |
| Rollout.MakeCurrentUntilPolled | backend/scadbuddy/worker.py:424-493 | the loop amid any steps of others: it ends made only if a write was taken and its build became current, gives up only on another build's take-over; and where nobody else changes the routing it ends made with the first write taken after an answered read, whatever was lost or refused before |
| LockClients.LockClient.Take | agent/src/db.ts:62-73 | a lease of the current generation, or of a new one, unless four are out |
| LockClients.LockClient.Done | agent/src/db.ts:79-92 | the lease settles once; an unhealthy one retires its generation, which ends when its last lease is done |
| LockClients.LockClient.ReserveFailed | agent/src/db.ts:71-78 | a failed reserve gives the lease back and retires nothing |
| LockClients.TakenValid | agent/src/db.ts:62-73 | a take keeps the accounting: leases equal the generations' counts, at most four, one unretired, three retired alive |
| LockClients.SettledValid | agent/src/db.ts:53-60 | a settled lease keeps the accounting, and each generation ends once and is not used again |
| LockClients.RetiredForGood | agent/src/db.ts:53-60 | once a lease is done unhealthy its generation is given to no later lease, whatever follows, and has ended as soon as none of its leases is out |
| LockClients.HealthyKeeps | agent/src/db.ts:53-60 | without an unhealthy lease nothing ever ends and no second generation is made |
| TestLock.AtMostOneTest | agent/src/access/listings.ts:256-295 | over any replicas and failures at most one test of a key runs on a connection still open |
| TestLock.SecondTestIff | agent/src/access/listings.ts:256-295 | from any reachable state a second test of a running one's key can start beside it, its own connection not dropping, if and only if that connection is closed already |
| TestLock.IdleHoldsNothing | agent/src/access/listings.ts:264-294 | a connection idle in a pool holds no advisory lock |
| TestLock.ClientsStayValid | agent/src/db.ts:48-94 | in every replica the lease accounting holds throughout |
| TestLock.NoLockLeftBehind | agent/src/access/listings.ts:256-295 | of a replica without a call under way every open connection is idle and none holds a lock, whatever failed before |
| TestLock.AllOverNoLock | agent/src/access/listings.ts:256-295 | in every reachable state in which every call is over, no lock is held at all |
| TestLock.CallEnds | agent/src/access/listings.ts:256-295 | from any reachable state a call with a lease can go to its end, and how: the test's value where nobody holds the lock, even if the unlock fails, busy where somebody does, unreachable without a connection or an answer |
| TestLock.ReusesIdle | agent/src/db.ts:62-78 | a call can be given an idle connection of its lease's generation, which then is idle no more |
| TestLock.DroppedConnectionFreesTheLock | agent/src/access/listings.ts:256-295 | where a connection drops, two tests of one key can run at once, the first without its session |
| ListingTotal.TotalBound | agent/src/access/listings.ts:133-164 | for every list of entries the stored listing's JSON is at most the total cap |
| ListingTotal.ListingLengthIs | agent/src/access/listings.ts:121-126 | tools measured once, plus brackets and commas, give the length of the array's JSON text |
| ListingTotal.BaresFit | agent/src/access/listings.ts:149-153 | 512 names of 128 code units fit the total whatever they hold, at six characters a unit |
| ListingTotal.FirstOverFits | agent/src/access/listings.ts:151-162 | the cut falls at the first tool whose title does not fit beside the names after it: it fits there and not one further |
| ListingTotal.EveryLossIsNamed | agent/src/access/listings.ts:85-164 | the tools are the accepted entries in order; each keeps its keys' order and values but for texts cut, and `omitted` names once exactly what was removed, cut or merged |
| ListingSteps.WhatGoes | agent/src/access/listings.ts:133-148 | which keys the total takes: a listing within it loses none; else all unknown keys first, and each further property only if the listing is over even without those before it, the description last; titles only after all |
| ListingTotal.Idempotent | agent/src/access/listings.ts:133-164 | the stored raw entries listed again come out unchanged, nothing named |
| ListingCaps.CapEntrySound | agent/src/access/listings.ts:103-119 | a capped entry accounts for each loss and nothing in it is over a cap |
| ListingCaps.KeptAre | agent/src/access/listings.ts:133-137 | the entries kept are those with a name of at most 128 units, in order, the first 512 |
| ListingCaps.CapEntryIs | agent/src/access/listings.ts:103-119 | what the caps leave of each property, in numbers: a text past 1,024 or 8,192 units cut there, a schema past 65,536 characters, annotations past 16,384, and the unknown keys together past 16,384 gone, everything else as it was |
| ListingCaps.CutIs | agent/src/access/listings.ts:71-75 | a cut text is the prefix, a pair cut in two leaving U+FFFD for its first half |
| ListingClean.LostIff | agent/src/access/listings.ts:57-69 | `keys` is lost exactly when, at any depth, two keys became one |
| ListingClean.CleanTwice | agent/src/access/listings.ts:52-69 | what was made storable is storable and is left alone |
| ListingClean.CleanGet | agent/src/access/listings.ts:57-69 | no key becomes a known key: a plain key keeps its own value |
| ListingTools.ToStoredTools | agent/src/access/listings.ts:133-164 | the in-place steps with their running sums give distinct tools of exactly the specified values |
| ListingTools.CutTitles | agent/src/access/listings.ts:149-163 | the suffix sum and the kept sum find the first tool over, and titles go from there |
| ListingTools.CapEntry | agent/src/access/listings.ts:103-119 | the caps applied in place, in their order |
| ListingTools.StoredTool.Omit | agent/src/access/listings.ts:85-89 | keys deleted one by one, and named once if any was there |
| ListingTools.StoredTool.CapText | agent/src/access/listings.ts:92-101 | a text over its cap cut, another value over it removed |
| Zip.WriteZip | agent/evals/threemf.ts:52-92 | the archive byte for byte, refused exactly when a field does not fit |
| Zip.ReadZip | agent/evals/threemf.ts:19-49 | the entries, or the error the source throws |
| Zip.FindEnd | agent/evals/threemf.ts:20-27 | the backward scan finds the last end record in reach |
| Zip.ReadEntries | agent/evals/threemf.ts:31-48 | the walk of the central directory |
| Zip.RoundTrip | agent/evals/threemf.ts:19-92 | reading what was written gives exactly the files, for distinct names within the field limits |
| Zip.EntryInArchive | agent/evals/threemf.ts:32-47 | each directory entry of a written archive reads back its file |
| Zip.EndReads | agent/evals/threemf.ts:20-29 | the scan of a written archive finds its own end record, whatever the files hold |
| Zip.Layout | agent/evals/threemf.ts:53-91 | local regions partition the bytes before the directory, and the archive is at most 22 bytes plus 76 and two names a file |
| Zip.ReadsOthers | agent/evals/threemf.ts:19-49 | any archive of stored entries, with extra fields, comments and an archive comment, reads as its entries |
| Zip.EntryErrors | agent/evals/threemf.ts:31-47 | what an entry is refused for: exactly a directory signature, a local signature or a method that is none, or a read past the end |
| Zip.FieldsInPlace | agent/evals/threemf.ts:60-84 | each field of a written entry's local and directory headers at its offset in APPNOTE.TXT |
| Zip.EndInPlace | agent/evals/threemf.ts:85-92 | each field of the written end record at its offset |
| Secrets.OpensWhatWasSealed | agent/src/secrets.ts:138-163 | a value opens to a plaintext exactly when it is that plaintext sealed under the key, in the context, in v1 or v2 |
| Secrets.SealOpens | agent/src/secrets.ts:129-135 | everything is written as v2, 29 bytes longer, and opens |
| Secrets.PortAgrees | agent-durable/src/scadbuddy_durable/secrets.py:92-121 | the port opens and refuses the same bytes and seals to the same bytes |
| Secrets.SecretRoundTrip | agent/src/secrets.ts:194-224 | a sealed secret opens to itself |
| Secrets.RewrapKeeps | agent/src/secrets.ts:231-241 | a rewrap is refused exactly when the old key does not open the data key, else opens as before under the new key, the secret's bytes untouched |
| Secrets.OtherContextStaysShut | agent/src/secrets.ts:25-30 | a secret moved to another of the contexts in use fails authentication |
| CredentialAads.AadInjective | agent/src/credentials.ts:147-169 | a context names one row id, kind and base URL: no base URL forges a field boundary |
| CredentialAads.EscapedInjective | agent/src/credentials.ts:167-169 | a JSON string's text is that of one string only |
| Health.ViewIsTheEvents | agent/src/credentials.ts:383-394 | on a monotone clock what `rows` shows is decided by the set of events of the last epoch: disabled, else cooling to the latest time while it is ahead, else active |
| Health.OrderIsIrrelevant | agent/src/credentials.ts:530-582 | two runs whose last epochs heard the same refusals and rate limits, in any order and with any `used` or `transient` or older events, show the same |
| Health.CooldownShortens | agent/src/credentials.ts:559-573 | a cooldown still ahead gets earlier exactly when a report replaces the very time it holds with a sooner one |
| Health.DisabledLeaves | agent/src/credentials.ts:520-573 | a disabled row leaves that state exactly by a reset or a new secret |
| Health.DoValid | agent/src/db/migrations/20261003T1617Z_credential_priority.sql:31-35 | every step keeps a time set exactly while cooling down, and only a reset or a new secret moves the epoch |
| Health.RecoveredIff | agent/src/credentials.ts:581-582 | `recovered` exactly when a success clears a cooldown that had passed |
| Health.PortRecordsTheSame | agent-durable/src/scadbuddy_durable/credentials.py:221-273 | what a durable segment writes is the agent's own update for the same event, and never disables |
| Health.UsableIff | agent-durable/src/scadbuddy_durable/credentials.py:102-107 | the rows a segment may use are exactly those the agent shows as active |
| Health.LastErrorShown | agent/src/credentials.ts:545-573 | the error and its time shown are those of the last thing in the epoch that went wrong; after a renewal there is none |
| Health.LastUseShown | agent/src/credentials.ts:530-545 | the last use shown is the latest success, whatever went wrong or was renewed since |
| Credentials.WrittenOpens | agent/src/credentials.ts:278-306 | what a save writes opens to the secret as entered, for the kind and base URL given |
| Credentials.SavedIff | agent/src/credentials.ts:278-306 | when a save is refused, keeps what is stored or writes, and why, over every kind, base URL, secret and key |
| Credentials.OpensIff | agent/src/credentials.ts:253-276 | when a row opens, and to what |
| Credentials.SaveThenReveal | agent/src/credentials.ts:404-455 | a secret saved is revealed as entered, and its row is active, without an error, in its next epoch |
| Credentials.CredentialStore.Put | agent/src/credentials.ts:432-455 | the named row, the first, or a new one; not found, refused or saved, the order kept |
| Credentials.CredentialStore.Create | agent/src/credentials.ts:457-479 | a row last in order, refused past the maximum |
| Credentials.CredentialStore.Delete | agent/src/credentials.ts:487-501 | exactly the row meant goes, the others keep their order and content, priorities dense |
| Credentials.CredentialStore.Reorder | agent/src/credentials.ts:503-518 | succeeds exactly for permutations of the stored ids and yields that order |
| Credentials.CredentialStore.Reset | agent/src/credentials.ts:520-528 | the one row active again, its epoch moved |
| Credentials.CredentialStore.Record | agent/src/credentials.ts:530-583 | the health of the one row, against its epoch only |
| Credentials.CredentialStore.Reveal | agent/src/credentials.ts:404-416 | the named or first row's credential, opened |
| Credentials.RenumberedOrder | agent/src/credentials.ts:494-497 | row numbers over a table with gaps make priorities 0 to n-1 in the same order |
| Credentials.NamesEachIff | agent/src/credentials.ts:506-510 | the counting check passes exactly when the ids are distinct and the stored ones |
| Rotation.RotationKeepsMeaning | agent/src/credentials.ts:592-620 | through any interleaving of saves, deletes and passes the rows are exactly those last entered and not removed, of the kind and base URL entered, and secrets under held keys open to what was entered in the row's own context |
| Rotation.OnePassIsEnough | agent/src/credentials.ts:592-620 | from the moment any pod's pass has tried all it read, no row is left that a pass could rewrap, and no pass changes a row again |
| Rotation.PassEnds | agent/src/credentials.ts:592-620 | a pass ends with as many tries as it has rows, whatever meets them |
| Rotation.CountsAre | agent/src/credentials.ts:585-618 | what a pass reports: the rows it moved, and those that could not be opened as read |
| Rotation.OnlyEnterChanges | agent/src/credentials.ts:586-591 | no step but entering a secret changes a row's secret, kind or base URL |
| Rotation.UpdateOpensIff | agent/src/credentials.ts:614-617 | a secret saved under the previous key still opens after the conditional update if and only if the save left the row's kind and base URL and its data key is the one that was read |
| Rotation.SaveUnderPreviousLoses | agent/src/credentials.ts:594-617 | a save under the previous key between read and update leaves a secret that opens under no key |
| AiStatuses.EnabledIff | agent/src/aiStatus.ts:51-86 | enabled exactly when everything answered and an opening credential is active |
| AiStatuses.NoneOpensIff | agent/src/aiStatus.ts:71-80 | when the missing key, the missing credential, another key and the old format are reported, over every list |
| AiStatuses.AllDisabledIff | agent/src/aiStatus.ts:88-94 | "every credential is disabled" exactly when all are and a reset of any one would enable it |
| AiStatuses.AllRateLimitedIff | agent/src/aiStatus.ts:95-98 | "every credential is rate limited" exactly when all are and the key opens them |
| AiStatuses.RecoversExactlyThen | agent/src/credentials.ts:323-329 | with no new event, enabled from `recoversAt` on and not before; without one, never |
| Subjects.SubjectOfSubject | agent-durable/src/scadbuddy_durable/codec.py:79-88 | what payloads are sealed for is a subject decoding accepts, and its own subject |
| Subjects.ChildOfSubject | agent-durable/src/scadbuddy_durable/codec.py:72-86 | a child workflow's payloads are its parent's subject's |
| Subjects.TaskOfSession | agent-durable/src/scadbuddy_durable/codec.py:66-88 | a background task's payloads are its session's |
| Subjects.SubjectOfIff | agent-durable/src/scadbuddy_durable/codec.py:66-88 | exactly which ids have which subject: a subject its own, a child its parent's, a task its session's, nothing else any |
| KeyCaches.KeyCache.Lookup | agent-durable/src/scadbuddy_durable/codec.py:207-211 | a key exactly while it has not expired; an expired one is dropped |
| KeyCaches.KeyCache.Keep | agent-durable/src/scadbuddy_durable/codec.py:226-232 | expired keys go, then the oldest when full, and the new key is held; a cache for none throws |
| KeyCaches.KeptIs | agent-durable/src/scadbuddy_durable/codec.py:226-232 | exactly what stays: the new key last, of the others those unexpired but for the oldest when full, in their order |
| PayloadKeys.OneKeyPerSubject | agent-durable/src/scadbuddy_durable/codec.py:160-257 | in any interleaving of processes every `key_for` that succeeds for a subject gives one key |
| PayloadKeys.NeverRecreated | agent/src/sessions/forget.ts:85-100 | after the tombstone no row is made again, and every key given was read before it |
| PayloadKeys.RewrapKeepsKey | agent/src/temporal/payloadCodec.ts:428-449 | a rewrap keeps the data key and puts it under the current key |
| PayloadKeys.RotationEnds | agent/src/temporal/payloadCodec.ts:428-449 | over runs: once each row under the previous key has been read and rewritten, and none was written under it since, no row names it |
| PayloadKeys.OnlyPreviousMoves | agent/src/temporal/payloadCodec.ts:436-447 | in every reachable state a rewrap changes one row at most, and that only from the previous key to the current one |
| PayloadKeys.RewrapMoves | agent/src/temporal/payloadCodec.ts:428-449 | in every reachable state a row under the previous key, read and rewritten, is under the current one |
| PayloadKeys.MakesKey | agent-durable/src/scadbuddy_durable/codec.py:160-257 | from every reachable state a subject without row and tombstone can get its key made, stored and given |
| PayloadKeys.GivenThenCached | agent-durable/src/scadbuddy_durable/codec.py:205-233 | a key given is given again by its process, without a call, until its time is over, and read anew from then on |
| PayloadKeys.CacheDeadline | agent-durable/src/scadbuddy_durable/codec.py:207-233 | a cached key is given only before its deadline |
| PayloadKeys.CacheBounded | agent-durable/src/scadbuddy_durable/codec.py:226-231 | whatever the interleaving no process holds more keys than its limit, or two for a subject |
| PayloadKeys.OpensAfterForget | agent-durable/src/scadbuddy_durable/codec.py:179-183 | whatever runs on from a reachable state, a forgotten subject's key is given only within the cache's time if and only if no call holds its row, under a key some process may have mounted, in that state |
| PayloadKeys.ForgottenStillOpens | agent-durable/src/scadbuddy_durable/codec.py:179-183 | for every delay a run in which a forgotten subject's key is given that long after its tombstone |
| PayloadCodec.EncodedDecodes | agent-durable/src/scadbuddy_durable/codec.py:129-145 | an encoded payload decodes to the original, one already sealed to its own plaintext, and is not sealed twice |
| PayloadCodec.DecodeErrors | agent-durable/src/scadbuddy_durable/codec.py:287-297 | a sealed payload is refused exactly for a subject that is none, forgotten exactly when its key is gone, else opened in the subject's context |
| PayloadCodec.SealedIff | agent-durable/src/scadbuddy_durable/codec.py:129-142 | which payloads are sealed and for whom; any other decodes to itself and is sealed when encoded |
| PayloadCodec.OneIvOnePlaintext | agent-durable/src/scadbuddy_durable/codec.py:120-145 | of one subject, two large payloads as sealed have one IV if and only if they are the same bytes |
| PayloadCodec.SubjectPayloadCodec.Encode | agent-durable/src/scadbuddy_durable/codec.py:273-285 | each payload sealed or passed on, in order, under the subject's one key |
| PayloadCodec.SubjectPayloadCodec.Decode | agent-durable/src/scadbuddy_durable/codec.py:287-297 | each payload opened or passed on, in order, or the first error |
| PayloadStore.FileStorageDriver.Store | agent-durable/src/scadbuddy_durable/payload_store.py:88-99 | claims in order, a file for each at its digest and with the bytes of one of them, no file changed; refused exactly when a payload is no sealed session's |
| PayloadStore.FileStorageDriver.Retrieve | agent-durable/src/scadbuddy_durable/payload_store.py:101-121 | the claimed payloads in order, or the first error |
| PayloadStore.RetrievedIs | agent-durable/src/scadbuddy_durable/payload_store.py:58-79 | a claim is refused exactly when it names no session or no digest of 64 hex digits, so none reads a file of another directory |
| PayloadStore.FileStorageDriver.Write | agent-durable/src/scadbuddy_durable/payload_store.py:80-86 | a file is written once for its digest |
| PayloadStore.OwnBytes | agent-durable/src/scadbuddy_durable/payload_store.py:80-82 | a file found at a payload's path already holds that payload's bytes, where no two contents share a digest |
| PayloadStore.StoredComesBack | agent-durable/src/scadbuddy_durable/payload_store.py:88-121 | storing and then retrieving gives each payload's bytes under its subject, in order, whatever the share held before |
| PayloadStore.PipelineRoundTrip | agent-durable/src/scadbuddy_durable/payload_store.py:124-132 | encoding, storing what is large, retrieving and decoding gives what the payloads open to, the plain ones themselves, for any mix, any subject and any choice of what is large |
| PayloadStore.EncodeIdempotent | agent-durable/src/scadbuddy_durable/codec.py:273-285 | encoding twice is encoding once |
| PayloadStore.LargeIsOneFile | agent-durable/src/scadbuddy_durable/payload_store.py:75-86 | a session's large payload encoded and stored twice gives one claim and adds one file at most |
| RateLimit.ClockTimeNames | agent-durable/src/scadbuddy_durable/credentials.py:190-193 | every minute of the day has exactly one twelve-hour name, and twelve is the first hour of its half |
| RateLimit.TimeOnlyIs | agent-durable/src/scadbuddy_durable/credentials.py:196-200 | a time alone gives the earliest instant after now at that minute, and none exactly when it passed within the grace the same day |
| RateLimit.AsDescribedIff | agent-durable/src/scadbuddy_durable/credentials.py:186-200 | the documented grace is kept if and only if midnight is not within it |
| RateLimit.GraceLostAtMidnight | agent-durable/src/scadbuddy_durable/credentials.py:196-200 | at five past midnight a reset at five to is given as tomorrow's |
| RateLimit.DatedIs | agent-durable/src/scadbuddy_durable/credentials.py:201-208 | a date gives the earliest instant after now on it, of next year only for a January date in December within the horizon |
| RateLimit.DatedNone | agent-durable/src/scadbuddy_durable/credentials.py:201-211 | a date gives nothing exactly when it is none this year, or has passed and next year's is none or too far |
| RateLimit.DatedGrace | agent-durable/src/scadbuddy_durable/credentials.py:201-208 | within the grace a date of this year gives nothing, and one of last year the same date months ahead |
| RateLimit.EveryMoment | agent-durable/src/scadbuddy_durable/credentials.py:201-208 | every microsecond of the years 1 to 9999 is a valid moment |
| RateLimit.DatesInOrder | agent-durable/src/scadbuddy_durable/credentials.py:201-208 | later dates have later midnights, so no two dates share a day |
| RateLimit.CooldownIs | agent-durable/src/scadbuddy_durable/credentials.py:155-159 | the cooldown is the reset itself between one second and a day from now, the nearer bound outside that, and a minute where none was named |
| Routes.Unambiguous | agent/evals/backend.ts:58-84 | no request is taken by two known routes that differ in more than parameter names |
| Routes.AlikeTakesTheSame | agent/evals/backend.ts:64-84 | routes that differ in parameter names only take the same requests |
| Routes.RoutePattern | agent/evals/backend.ts:64-84 | the pattern: literals, and parameters that exclude the literals siblings have there |
| Routes.TakesIff | agent/evals/backend.ts:70-82 | a route takes a request of its shape exactly when no sibling has that literal where it has a parameter |
| Routes.PartsAre | agent/evals/backend.ts:85-89 | `METHOD a/b` reads as its method and its segments between the slashes |
| Routes.ParamIff | agent/evals/backend.ts:48 | a parameter is a name in braces that holds no slash and no closing brace |
| Routes.FitsButTakenByNone | agent/evals/backend.ts:58-84 | a table of two routes and a request of one's shape that neither takes |
| Routes.TakenByNoneIff | agent/evals/backend.ts:58-84 | no known route takes a request if and only if each one whose shape it has is refused it by a sibling's literal where it has a parameter |
| OffCalls.OffCallItem | agent/src/access/items.ts:186-216 | refuses exactly when some plugin has an item the call reaches and it or the plugin is off, and names the first such plugin's: `*` where it is off, else the first item reached that is |
| OffCalls.Reached | agent/src/access/items.ts:196-210 | exactly the items named in any spelling, then targets of aliases named so, in their order |
| OffCalls.NamesIff | agent/src/access/items.ts:196-210 | exactly which items and aliases a call names: by the whole name or what follows `<plugin>:`, skills as they are and agent types by their form |
| OffCalls.NamedIs | agent/src/access/items.ts:98-103 | which calls are judged, and the name each gives |
| OffCalls.SpacesAndSlashDrop | agent/src/access/items.ts:164-172 | a skill is named with white space around it and one slash before it, a subagent as it is |
| OffCalls.MoreOffRefusesMore | agent/src/access/items.ts:173-185 | more off rows or plugins never allow a refused call |
| OffCalls.OffByAnySpelling | agent/src/access/items.ts:159-171 | an off item is refused by its name and by `<plugin>:<name>`, in any form that reaches them |
| OffCalls.QualifiedReaches | agent/src/access/items.ts:197-200 | a name qualified by the plugin in any form that reaches it reaches the item |
| Overrides.RegistryOverrides | agent/src/access/resolve.ts:27-35 | read back, each tool's access with the browser's switch folded in, nothing stored without cause, the tools off in order of name and each once |
| Overrides.ItemOverrides | agent/src/access/resolve.ts:41-53 | read back, each tool's own access; tiers stored differ from the tool's own, and the tools off are in order of name |
| Overrides.FoldedIs | agent/src/access/resolve.ts:15-35 | what a tool's access reads as with and without a row and with the switch either way |
| Loadings.SetLoading | agent/src/access/capabilities.ts:208-222 | refused exactly for an item that takes none and without a database; else amid other callers' writes it succeeds by taking effect exactly once within the call, and a refusal changes nothing |
| Loadings.LoadingStore.Write | agent/src/access/capabilities.ts:77-90 | written if and only if the stored loadings are still those seen |
| Loadings.LastChangeHolds | agent/src/harness/toolSearch.ts:97-105 | no update is lost: a tool loads as the last change to it says |
| Loadings.ReplayMinimal | agent/src/harness/toolSearch.ts:101-105 | nothing is ever stored that says what a tool loads as anyway |
| Loadings.SameLoadingsIff | agent/src/access/capabilities.ts:69-72 | equal counts and one side's entries in the other is equality |
| Capabilities.ReadsOffIff | agent/src/access/capabilities.ts:152-169 | at any depth an item reads off exactly when a switch from its source to the top is off or it was; its own access never moves, and its reason is its own or names the topmost switch off |
| Capabilities.SwitchedAt | agent/src/access/capabilities.ts:158-169 | the reason names the topmost switch that is off |
| Capabilities.FoundAsInTree | agent/src/access/capabilities.ts:284-305 | over any providers that share no source, a source asked for by id, child or not, reads as it does in the tree, and is not found exactly when it is not there |
| Capabilities.FindIs | agent/src/access/capabilities.ts:284-305 | a source found among its siblings is the first with its id |
| Capabilities.AloneReadsOtherwise | agent/src/access/capabilities.ts:294-300 | a child folded alone under a parent switched off would read on |

## Left out

- Drain.NeverAllLeaveEarly: assumes one polling identity a pod, a start's clear that has landed before that life's drain begins, no mark landing after its pod's life, one drain bound for all pods of the build, and checks and marks that take at most `lag`; the late clear is a race the code accepts.
- Drain.SafeExactly: is of drains of at least 240 s, clocks within 90 s of Temporal's and delays shorter than the grace; that the bound suffices needs the last of these only.
- Drain: marks that do not parse, `_until_written`'s retries as such (a mark may be written any number of times), logging.
- Rollout.NeverTakesOver: says nothing of a loop before its first answered read, which the code accepts.
- Rollout.NeverTakesBack: the same.
- Rollout.MakeCurrentUntilPolled: that it ends made is of turns in which nobody else changes the routing.
- Rollout: the back-off times and `wait_until_routed`.
- LockClients: `end()`, and a client whose construction throws.
- TestLock.AtMostOneTest: is of tests whose session is still open, since a dropped connection loses its lock; a reconnected connection is a new session.
- agent/src/db.ts `makePing` and `makeReady`: single-flight wrappers that one flag settles.
- Listings: values JavaScript can hold and JSON cannot, integer-like keys' own order, `listedTool`, and the stored rows' writes (`#putIfCurrent`, `#putIfPinned`).
- Zip: DEFLATE, CRC-32 and UTF-8 are parameters; data descriptors and ZIP64 are not written or read by the source.
- Secrets: base64 of the key file, zeroing of buffers, `last4`, `redact`; a data key of another length than 32 bytes.
- Secrets.OtherContextStaysShut: assumes that of the contexts in use no two share a tag, as authentication does.
- Health.ViewIsTheEvents: is of reports that replace no provisional time; what `replacing` may do is `Health.CooldownShortens`.
- Health.OrderIsIrrelevant: is of such reports too.
- Credentials: `last4`, `updated_at`, the eviction notices and audit rows, `normaliseBaseUrl` (a parameter).
- Rotation.RotationKeepsMeaning: assumes saves seal under the current key and every pass is from one previous key to one current key; a pass with both the same does nothing and is not a step.
- Rotation.UpdateOpensIff: assumes that of the two data keys, and of the two contexts, in play neither opens what was sealed with the other, as authentication does.
- AiStatuses.RecoversExactlyThen: times are exact; the source shows them to the millisecond.
- PayloadKeys.OneKeyPerSubject: leaves out the sweeps that delete a key without a tombstone (orphaned sessions, browser calls), whose subjects are not used again.
- PayloadKeys: key ids are taken to identify keys, as SHA-256 does.
- PayloadCodec: a metadata value is kept as its text; one that is not UTF-8 throws in the source.
- PayloadCodec.OneIvOnePlaintext: assumes that no two of the contents sealed share the first 12 bytes of their HMAC.
- PayloadStore.OwnBytes: assumes no two contents written share a SHA-256.
- PayloadStore: the staging file and its rename are one step.
- PayloadStore.StoredComesBack: assumes no two contents on the share or stored share a SHA-256.
- PayloadStore.PipelineRoundTrip: assumes that too, and that the key is still there at decoding; Temporal's size comparison is any choice, and what it does around the driver is `SentAndLoaded`.
- RateLimit: the regular expression; its groups are the input. Instants past the year 9999.
- Routes: a regular expression is read segment by segment, as its anchors and slashes make it.
- OffCalls: an alias's targets reached twice are looked at twice, which finds the same first one; the Unicode forms and doubts are parameters; `offItemReason`.
- Overrides.RegistryOverrides: tool names are distinct, as the registry's are; `pluginOverrides` is not part of this model.
- Overrides.ItemOverrides: the same; the order of the tiers' keys is not modelled.
- Loadings: `parseToolLoadings` of a value written by hand; the lookup of the source and item, whose 404 comes before any refusal here.
- Capabilities.FoundAsInTree: is of providers that answer for one source what they list for it (`Provider.Consistent`).
- Capabilities: providers, item details and writes; `loaded` beside `switched`.
