# Hub: the create protocol and the pieces around it

A Dafny model of a service that keeps conversion tags in a database and mirrors them as custom
conversions in Meta, with proofs about it. `dafny verify dfyconfig.toml` checks everything.

## What is modelled

**The create protocol** (`Hub`). A state is the committed tables, Meta, and the requests in flight. A
request is at one of twelve stages and holds what its session has flushed and not committed. One step
is one database statement or outside call of one request, an arrival, a broken statement, or something
the rest of the system does (a pixel sync, a new token, a conversion created elsewhere). Reads see what
is committed at that moment (READ COMMITTED). A flush that meets another session's uncommitted unique
key or row waits; one that meets a committed key fails. Meta is not rolled back. Every theorem about
runs quantifies over all sequences of steps, so over all interleavings and all failures.

- `HubInvariant`, `HubRuns`: the invariant of reachable states, and that committed data only grows.
- `HubTheorems`: what follows for tags, records, Meta, pixels, replays and errors.
- `HubTokens`: refresh tokens while concurrent requests refresh access tokens.
- `HubProgress`: requests never block one another for good.
- `GetOrCreate`: the answers refine a map from (advertiser, name) to a tag id that is only extended.
- `Discards`, `DiscardWitness`: exactly which 201s are about a tag that was thrown away, and a run with one.
- `Conflicts`: exactly which requests end in the name conflict, and a run in which a twin does.
- `Answers`: what a 201 says, field by field, under every interleaving.
- `Serial`, `Retries`, `Success`: a request served alone is a run of the machine; what a repeated
  request gets; how every request is answered, read off the tables before it, and which rows it touches.
- `HubService`, `PixelSync`: the services as classes over one session, statement for statement, proved
  equal to the machine's statements. All of them, the pixel repository included, flush into that session.
- `PixelRuns`: pixel syncs that overlap, as a machine of their own over the pixel table. An UPDATE
  carries the columns that differ from what the session read, and none is sent without a difference.
- `TornRow`, `PixelWaits`: a row that no sync described, and exactly when two syncs block each other.

**The parts**: `CanonicalJson` and `Requests` (the hashed request form), `MetaAdapter`, `FaultInjection`,
`MockAdapter` and `AdapterThreads` (the adapter, called by one thread and shared by many), `RetryClient`, `Utf8`, `Base64Url`,
`TokenCipher`, `OAuth`, `Pixels`, `Numeric` (what the value column holds). `Prelude` and `Domain` hold shared types.

SHA-256, HMAC, SHA-1, the text of a decimal, drawn UUIDs, the clock and the provider's answer are
parameters. Only the lemmas that say so assume that a hash tells certain texts apart.

## Where the code and its comments differ

The model follows the code.

- A failed Meta call does not leave a PENDING or FAILED row behind
  (app/services/conversion_tag_service.py:27-31): the error it raises rolls the session back, so the
  branch that resumes such a row is never taken (`HubTheorems.NothingToResume`).
- Idempotency records are said to live 24 hours (app/services/idempotency.py:7, 22). The expiry is
  written and never read: a record answers forever (`HubTheorems.ReplaysForever`).
- A second request with a used key and another body is said to get 409
  (app/services/idempotency.py:6). It does once the first has committed. When both are in flight, the
  loser's whole session is rolled back and it still answers 201 (`DiscardWitness.LoserIsToldCreated`,
  `Discards.DiscardedExactly`).
- A second request with a used key and the same body is said to get the first one's response
  (app/services/idempotency.py:5). When both are in flight and the first commits before the second
  inserts, the second gets 409 for its name (`Conflicts.TwinIsToldConflict`, `Conflicts.ConflictExactly`).
- The repository's own README says (line 127) that `Retry-After` is honoured. It is parsed and plays no part in the wait. A value that
  is not a number ends the call with an error that is not retried (`RetryClient.Classify`).
- No response makes the token refresh; only the stored expiry does (app/services/oauth_service.py:81).
- A sync can move a pixel to another advertiser (app/repositories/pixel.py:50), so a tag's pixel need
  not belong to the tag's advertiser; the tag's payload still names that pixel
  (`HubTheorems.PayloadMirrorsRow`).

## Model

| member | source | states |
|---|---|---|
| HubRuns.RunInv | app/services/conversion_tag_service.py:47-128 | Every state of every run is sound: committed tags are final and unique, records name committed tags, requests in flight hold only what can still be committed, and no two hold the same key |
| HubRuns.RunGrows | app/db/session.py:48-59 | Along every run no committed tag, record or advertiser is changed or removed, pixels keep their Meta ids, and Meta forgets no conversion |
| HubTheorems.CommittedTagsAreFinal | app/services/conversion_tag_service.py:64-128 | A committed tag is ACTIVE with a Meta id, is the only one of its advertiser and name, and never changes again |
| HubTheorems.NothingToResume | app/services/conversion_tag_service.py:64-69 | The name lookup of a reachable state finds an ACTIVE row or none |
| HubTheorems.RecordsNameCommittedTags | app/api/routes/conversion_tags.py:46-58 | A committed record is never replaced, its tag is committed no later than it, and its body agrees with the tag's row for ever: id, advertiser, pixel, Meta id, status and all columns, the value as the nearest number with four decimals |
| HubTheorems.HubAndMetaAgree | app/services/conversion_tag_service.py:104-128 | The Meta id of a committed tag is that of the conversion Meta holds under the advertiser's account and the tag's name |
| HubTheorems.SharedMetaId | app/integrations/meta/mock_adapter.py:68-86 | Two committed tags share a Meta id exactly when account and name coincide, for accounts without "\|" and a digest that tells the two apart |
| HubTheorems.OrphansAreAdopted | app/integrations/meta/mock_adapter.py:68-71 | A conversion left in Meta by a request that was rolled back is the one a later tag of that account and name carries |
| HubTheorems.PayloadMirrorsRow | app/services/conversion_tag_service.py:91-126 | The columns of a committed tag are those of its payload, the value as the nearest number with four decimals, and the payload names its pixel's Meta id in every later state; value is null exactly when currency is |
| Hub.StoredHolds | app/models/conversion_tag.py:39-44 | A row holds name, event type, category, currency and rule as given, and the value rounded |
| Numeric.StoredExactly | app/models/conversion_tag.py:42 | A value with at most four decimals is stored as it is |
| Numeric.StoredNearest | app/models/conversion_tag.py:42 | Any value is stored as the multiple of 10^-4 at most half a unit away, upwards when two are |
| Numeric.StoredRounds | app/models/conversion_tag.py:42 | No other column value is: null for null, the nearest for a number |
| Numeric.FitsExactly | app/models/conversion_tag.py:42 | A value is refused exactly when what would be stored is 10^14 or more |
| Answers.CreatedTellsInput | app/services/conversion_tag_service.py:71-128 | A request that inserted and is answered 201 is told, under every interleaving, the drawn id, its own advertiser, pixel and columns, ACTIVE, and the Meta id of its account and name |
| Answers.CreatedTellsRow | app/services/conversion_tag_service.py:64-69 | Any other 201, found or replayed, agrees field by field with a committed row, then and in every later state |
| HubTheorems.DoneIsFinal | app/db/session.py:48-59 | An answered request stays as it is |
| HubTheorems.ErrorsLeaveTables | app/db/session.py:48-59 | No step of a request that ends in an error changes a table, under any interleaving |
| HubTheorems.ReplaysForever | app/services/idempotency.py:38-48 | Once a key is recorded, every request that arrives later with it ends with the recorded body for the same hash, the conflict for another, or a broken statement |
| HubTheorems.ReplaysTouchNothing | app/api/routes/conversion_tags.py:34-44 | No step of such a request changes a table or Meta |
| HubProgress.WaitsForFurther | app/models/conversion_tag.py:53-57 | A flush only waits for a session that has come further |
| HubProgress.SomeoneCanMove | app/models/idempotency.py:27-29 | Requests never wait for one another in a circle: one of those in flight can always do its next statement |
| HubProgress.AllCanFinish | app/db/session.py:48-59 | From every reachable state all requests in flight can be brought to an end, in a bounded number of statements and whatever the outside decides at each |
| HubProgress.MovesAreBounded | app/db/session.py:48-59 | As long as nothing arrives the statements are bounded, in whatever order the requests take turns |
| HubProgress.HaltsWhenDone | app/db/session.py:48-59 | The requests come to a halt exactly when all are answered |
| HubTokens.TokensStayReadable | app/services/oauth_service.py:96-107 | Under every interleaving stored and flushed ciphertexts decrypt |
| HubTokens.RefreshTokenKept | app/repositories/oauth_token.py:33-54 | Under every interleaving a stored refresh token is never dropped, and only a new token that brings another changes it; refreshes, of create requests or of syncs, change neither it nor the scopes |
| HubTokens.TokenNeverMissing | app/services/oauth_service.py:67-107 | Once a row has a refresh token no create request of its advertiser fails for want of a token |
| GetOrCreate.HashesTellApart | app/services/idempotency.py:29-31 | If SHA-256 does not collide on the requests of a state, the request hash tells them apart |
| GetOrCreate.CreatedNamesTheTag | app/api/routes/conversion_tags.py:30-63 | When requests in flight under one key agree and the request hash tells requests apart, every 201, keyed or not, fresh or replayed, carries the id that is and stays under its advertiser and name |
| GetOrCreate.SameNameSameTag | app/services/conversion_tag_service.py:64-88 | Under the same two conditions two 201s for one advertiser and name carry one tag id |
| GetOrCreate.MapIsOnlyExtended | app/services/conversion_tag_service.py:64-88 | A step adds at most one absent entry to the map from (advertiser, name) to id: the tag that a commit brings |
| Discards.DiscardedExactly | app/repositories/idempotency.py:42-50 | In every run in which no UUID is drawn twice, a 201 is about a tag that is not committed exactly when, as its response was to be stored, its key had been recorded and no tag was committed under its own advertiser and name |
| Discards.DiscardedForAnother | app/repositories/idempotency.py:44-49 | Then the key was free at the request's lookup and has since been recorded for another advertiser or name |
| Conflicts.ConflictExactly | app/services/conversion_tag_service.py:82-88 | A request ends with the name conflict exactly when its insert broke, or was refused (id taken, name committed since its lookup, value too large) and the rollback went through |
| Conflicts.TwinIsRefused | app/services/idempotency.py:3-7 | A request that reaches its insert after a twin with its key and content has been recorded is refused there, as long as the request hash tells requests apart |
| Conflicts.TwinIsToldConflict | app/services/conversion_tag_service.py:82-88 | A run with two requests of one key and one body in which the first is answered 201 and the second 409 for its name |
| DiscardWitness.LoserIsToldCreated | app/repositories/idempotency.py:44-49 | A run with two requests, one key and two names in which both are answered 201 and the second tag is not in the database |
| Serial.ServedAlone | app/api/deps.py:33-61 | Serving a request alone from a reachable state is a run of the machine |
| Serial.ErrorLeavesTables | app/db/session.py:48-59 | A request served alone that ends in an error leaves every table as it was |
| Retries.SerialRunsGetOrCreate | app/services/conversion_tag_service.py:64-88 | In serial runs two 201s for one advertiser and name carry one id, whatever the keys, as long as the request hash tells requests apart |
| Retries.ServedAgain | app/api/routes/conversion_tags.py:34-63 | A request that was answered 201 gets the same body when sent again, without changing a table or calling Meta, whatever the clock and Meta say by then |
| Success.AnsweredExactly | app/api/routes/conversion_tags.py:30-63 | The answer to a request served alone, read off the tables, Meta and the outside's choices: recorded body or conflict for a used key; 404 for advertiser, pixel or token missing; 502 for no account or a failed call; 409 for id or value; else the 201 with the row found or the fields asked for |
| Success.CreatedExactly | app/api/routes/conversion_tags.py:30-63 | A request served alone is answered 201 exactly when its key is recorded with its hash, or is free and account, pixel, and either the tag or all it takes to create it are there |
| Success.ServedTouches | app/db/session.py:48-59 | Such a request touches no row but the tag of the drawn id, its advertiser's token and the record of its key |
| Success.HandledInFull | app/api/routes/conversion_tags.py:30-63 | Answer and tables together: an error leaves the tables, and a 201 repeats a committed row and is kept, with hash and status, under a key that is not empty |
| HubService.Session.Commit | app/db/session.py:48-59 | All flushed writes reach the tables at once, columns as `Hub.StoredHolds` says, and the session is clean |
| HubService.Session.Rollback | app/db/session.py:48-59 | Nothing flushed is kept |
| HubService.IdempotencyService.Get | app/repositories/idempotency.py:16-21 | The committed record under the key, if any |
| HubService.IdempotencyService.Insert | app/repositories/idempotency.py:23-50 | A free key is flushed; for a taken one the session loses all its writes and the other record is returned |
| HubService.IdempotencyService.Lookup | app/services/idempotency.py:38-48 | The recorded body for the same hash, the conflict for another, nothing for a free key |
| HubService.IdempotencyService.Store | app/services/idempotency.py:50-67 | The record joins the session's writes, or the session is emptied |
| HubService.ConversionTagRepository.GetByAdvertiserAndName | app/repositories/conversion_tag.py:23-30 | The row with this advertiser and name, or the fact that there is none |
| HubService.ConversionTagRepository.Create | app/repositories/conversion_tag.py:15-18 | Flushes the row exactly when id and (advertiser, name) are free and the rounded value is below 10^14 |
| HubService.TokenService.GetAccessToken | app/services/oauth_service.py:67-107 | The decrypted access token of the row while it is good for more than 60 s, else the provider's answer to the decrypted refresh token with its row flushed, else the error |
| HubService.ConversionTagService.Load | app/services/conversion_tag_service.py:50-62 | The two reads of the protocol, with their errors |
| HubService.ConversionTagService.FindOrInsert | app/services/conversion_tag_service.py:64-88 | The name lookup and the insert of the protocol: an ACTIVE row ends the work, a refused insert rolls back |
| HubService.ConversionTagService.FetchToken | app/services/conversion_tag_service.py:90 | The token statements of the protocol, as the shared session sees them |
| HubService.ConversionTagService.CallMeta | app/services/conversion_tag_service.py:91-128 | The Meta call of the protocol on the adapter object, faults included, and the row's fields assigned one by one |
| HubService.ConversionTagService.Create | app/services/conversion_tag_service.py:47-128 | The whole service call takes the request from its first read to the point where its response is stored or its session rolled back |
| HubService.App.CreateConversionTag | app/api/routes/conversion_tags.py:22-63 | The route takes the request from arrival to commit, rollback or replay, with the body that `Success.AnsweredExactly` describes |
| HubService.App.Finish | app/db/session.py:48-59 | After a route that returned everything flushed is committed, after one that raised nothing |
| HubService.App.Handle | app/db/session.py:48-59 | Tables, Meta, answer and number of Meta calls are those of the request served alone by the machine; answer and tables are read off the tables before as `Success.HandledInFull` says |
| PixelSync.PixelSyncService.SyncForAdvertiser | app/services/pixel_sync_service.py:31-74 | Reads, token, listing and loop give the report and the rows to commit, or the error of the first step that fails, as `PixelSync.ServeSyncAnswers` spells out |
| PixelSync.ServeSyncAnswers | app/services/pixel_sync_service.py:31-74 | Created counts the distinct fetched ids that were unknown, both counts the list; the advertiser's rows are listed; each fetched pixel has one row as last described, other rows and tables stay; and which error arises when |
| PixelSync.PixelSyncService.Handle | app/db/session.py:48-59 | The same of the request as a whole: pixel rows and a refreshed token are committed together, or every table is as it was |
| PixelSync.TokenWriteIsGet | app/services/oauth_service.py:67-107 | Committing the token write of a session is `get_access_token` on the table |
| PixelSync.FetchedIsListed | app/services/pixel_sync_service.py:74 | Every fetched pixel is in the answer, for this advertiser, with the name and status of its last entry |
| PixelSync.SyncIsRun | app/services/pixel_sync_service.py:46-74 | A successful sync is a run of the create machine, so its theorems hold across syncs |
| PixelRuns.RunInv | app/repositories/pixel.py:27-52 | However syncs overlap, Meta ids stay unique in the table and across what sessions have flushed |
| PixelRuns.CommitsByColumn | app/repositories/pixel.py:36-52 | However syncs overlap, only commits change the table; each brings the columns that differed from what its session read, as last fetched, and leaves the others as other syncs have made them |
| PixelRuns.CommitIsOverrideExactly | app/repositories/pixel.py:48-51 | A commit makes the table say all that Meta told its sync exactly when, for every column of every fetched row, the session read another value or the table still has the fetched one |
| TornRow.NeitherDescribed | app/repositories/pixel.py:48-51 | A run in which two syncs leave a row with the name of the one and the advertiser of the other |
| PixelWaits.UndisturbedOverrides | app/services/pixel_sync_service.py:51-63 | While nobody else commits, a sync of known pixels overrides the table whole |
| PixelRuns.CommitIsHubStep | app/services/pixel_sync_service.py:51-63 | Each such commit is a step that the create machine allows for |
| PixelWaits.OrderedSyncsMove | app/services/pixel_sync_service.py:51-63 | Syncs whose lists go through Meta ids in one order, repeating them or not, never wait for one another in a circle |
| PixelWaits.StuckExactly | app/services/pixel_sync_service.py:51-63 | Two syncs of known pixels can end up waiting for each other exactly when their lists have two entries at which each changes a row that the other has changed, having changed different rows until then |
| PixelWaits.OppositeOrdersCanBlock | app/services/pixel_sync_service.py:51-63 | Two syncs that got the same two stale pixels in opposite orders can |
| CanonicalJson.ReadQuotedUndo | app/services/idempotency.py:29-31 | The reader undoes the printing of any string of Unicode scalars, escapes and surrogate pairs included (section 7 of RFC 8259) |
| CanonicalJson.ReadValueUndo | app/services/idempotency.py:29-31 | The reader undoes the printing of any value, nested to any depth |
| CanonicalJson.NormSame | app/services/idempotency.py:29-31 | Sorting keys at all depths gives one form exactly to equal values (section 4 of RFC 8259) |
| CanonicalJson.CanonicalInjective | app/services/idempotency.py:29-31 | Two values have one canonical text exactly when they are equal, in whatever order their keys are listed |
| CanonicalJson.NormOfTwo | app/services/idempotency.py:29-31 | Members are listed in code point order of their keys |
| CanonicalJson.PrintOfTwo | app/services/idempotency.py:29-31 | And printed without spaces |
| CanonicalJson.EscapeExample | app/services/idempotency.py:29-31 | An escape in lower-case hexadecimal, and the surrogate pair of U+1F600 |
| Requests.Hashing.RequestJsonSays | app/api/routes/conversion_tags.py:30-32 | What the hashed dict has under each of its keys |
| Requests.Hashing.RequestJsonInjective | app/api/routes/conversion_tags.py:30-32 | Equal payload dicts come from equal advertisers and payloads |
| Requests.Hashing.SameHashSameRequest | app/api/routes/conversion_tags.py:30-32 | Two requests have one hash exactly when advertiser and payload are equal |
| MetaAdapter.StableIdInjective | app/integrations/meta/mock_adapter.py:103-105 | For accounts without "\|" two slots have one id exactly when they are equal |
| MetaAdapter.CreateKeeps | app/integrations/meta/mock_adapter.py:55-86 | Creating keeps both indexes consistent, adds at most its own slot, changes no recorded conversion, and answers from the index |
| MetaAdapter.CreateRecords | app/integrations/meta/mock_adapter.py:63-86 | A new conversion has the pixel, the columns and the id of its slot under both indexes; a recorded one is returned as it is; an unknown pixel is an error |
| MetaAdapter.CreateKeepsBijection | app/integrations/meta/mock_adapter.py:68-86 | A creation keeps the two indexes in bijection exactly when the pixel is unknown, the name is already recorded, or its id is not in use |
| MetaAdapter.BarBreaksBijection | app/integrations/meta/mock_adapter.py:103-105 | With a "\|" in an account id two names get one id, whatever the digest |
| FaultInjection.LcmDivides | app/integrations/meta/mock_adapter.py:94-100 | The numbers that both settings fault are the multiples of the least common multiple |
| FaultInjection.FaultCount | app/integrations/meta/mock_adapter.py:90-100 | Among the first n calls n/N + n/T - n/lcm(N,T) are faulted |
| FaultInjection.ThresholdExactly | app/integrations/meta/mock_adapter.py:98 | T is the integer nearest to 1/fail_rate, ties to the even one, and at least 1 |
| MockAdapter.MockMetaAdapter.SeedPixels | app/integrations/meta/mock_adapter.py:41-43 | The account's pixels are replaced, nothing else |
| MockAdapter.MockMetaAdapter.MaybeFail | app/integrations/meta/mock_adapter.py:90-100 | Counts the call and fails exactly at the multiples of the two settings |
| MockAdapter.MockMetaAdapter.ListPixels | app/integrations/meta/mock_adapter.py:50-53 | The account's pixels, unless the call is faulted |
| MockAdapter.MockMetaAdapter.CreateCustomConversion | app/integrations/meta/mock_adapter.py:55-86 | Creates or finds the conversion of the slot; a faulted call changes only the counter |
| AdapterThreads.Adapter.MutualExclusion | app/integrations/meta/mock_adapter.py:91-93 | No two threads are ever inside the lock |
| AdapterThreads.Adapter.Linearizable | app/integrations/meta/mock_adapter.py:55-100 | Under every interleaving of single statements, counts and answers are those of one caller after another in the order the lock was released; whenever it is free, memory is what that caller would have left |
| AdapterThreads.Adapter.AnsweredInBetween | app/integrations/meta/mock_adapter.py:61-86 | Between being made and being answered a call took effect once, with the answer it got, after a count that is not faulted; or it was counted, faulted, and took no effect |
| AdapterThreads.Adapter.SameSlotSameRecord | app/integrations/meta/mock_adapter.py:68-71 | Two successful creations of one slot return one record |
| AdapterThreads.Adapter.IndexesStayBijective | app/integrations/meta/mock_adapter.py:73-85 | After any interleaving, whenever the lock is free, the two indexes are in bijection, for accounts without "\|" |
| AdapterThreads.Adapter.FaultedCalls | app/integrations/meta/mock_adapter.py:90-100 | No count is lost, and the number of faulted calls depends only on how many were counted |
| RetryClient.MetaApiClient.DoRequest | app/integrations/meta/client.py:90-118 | One request on the wire: whether it was applied, and the class of its reply |
| RetryClient.OutcomeExactly | app/integrations/meta/client.py:90-118 | Retried are lost connections, 5xx, and 429 unless Retry-After is not a number; which statuses give which other outcome |
| RetryClient.MetaApiClient.Post | app/integrations/meta/client.py:66-88 | Attempts stop at the first outcome that is not retryable or at the last allowed one, whose outcome is returned; the waits between are the capped exponential ones |
| RetryClient.WaitNeverDecreases | app/integrations/meta/client.py:78-82 | Each wait is at least the one before |
| RetryClient.WaitExactly | app/integrations/meta/client.py:78-82 | The wait after attempt k is d * 2^(k-1) between d and 10 seconds |
| RetryClient.WaitsBounded | app/integrations/meta/client.py:78-82 | n waits take at most n * max(d, 10) seconds |
| RetryClient.WaitsUncapped | app/integrations/meta/client.py:78-82 | While the cap is not reached n waits take d * (2^n - 1) seconds |
| RetryClient.PostsBehaveAsOne | app/integrations/meta/client.py:66-118 | However often the attempts of one POST were applied, Meta ends as after one application, or as before if none was |
| RetryClient.SuccessLeavesOne | app/integrations/meta/mock_adapter.py:68-86 | After an applied success the slot holds exactly one conversion, the old one if there was one |
| RetryClient.RealMetaAdapter.CreateCustomConversion | app/integrations/meta/real_adapter.py:33-68 | Through the retrying POST the slot gains at most one conversion, and holds exactly one after a success, if Meta reports success only for what it applied |
| Utf8.DecodeEncode | app/core/security.py:29-41 | Decoding undoes encoding (section 3 of RFC 3629) |
| Utf8.DecodeExact | app/core/security.py:41 | The strict decoder accepts exactly the encodings |
| Utf8.Examples | app/core/security.py:29-41 | Characters of one to four bytes (section 7 of RFC 3629) |
| Base64Url.DecodeEncode | app/core/security.py:33-36 | The lenient reader undoes padded base64url (section 5 of RFC 4648) |
| Base64Url.EncodeShape | app/core/security.py:33 | The text is ASCII and its length is 4 * ceil(n/3) |
| Base64Url.ShortExamples | app/core/security.py:33 | The padded encodings of one and two bytes (section 10 of RFC 4648), and the digits - and _ |
| Base64Url.GroupExample | app/core/security.py:33 | The encoding of a whole group |
| TokenCipher.XorByteBits | app/core/security.py:43-45 | Bit by bit, the XOR of two bytes is set exactly where they differ |
| TokenCipher.XorCyclicUndo | app/core/security.py:43-45 | The cyclic XOR undoes itself |
| TokenCipher.EncryptSpells | app/core/security.py:29-33 | A token spells the HMAC of the ciphertext and the ciphertext, whose byte i is that of the text with the bits of key byte i mod 32 flipped |
| TokenCipher.MakeValid | app/core/security.py:24-27 | A key makes a usable cipher exactly when it is not empty |
| TokenCipher.DecryptEncrypt | app/core/security.py:29-41 | What was encrypted decrypts to the same text, for every key and text |
| TokenCipher.EncryptInjective | app/core/security.py:29-33 | Two texts have one token exactly when they are equal |
| TokenCipher.EncryptLength | app/core/security.py:29-33 | The token has 4 * ceil((32 + n)/3) characters for n UTF-8 bytes |
| TokenCipher.EncryptDecrypt | app/core/security.py:35-41 | Encrypting what a token decrypts to gives the token back exactly when it is canonical base64url |
| TokenCipher.StrayCharacterIsIgnored | app/core/security.py:36 | A token that is not: a foreign character is skipped |
| OAuth.CipherConfigValid | app/services/oauth_service.py:46-107 | The service's cipher reads back what it writes |
| OAuth.ConfiguredKeyIsValid | app/services/oauth_service.py:40-44 | So it does under every configured key but the empty one |
| OAuth.OAuthService.Upsert | app/repositories/oauth_token.py:23-54 | The row's fields are replaced, an absent refresh token or scope leaving the old one |
| OAuth.OAuthService.StoreInitialToken | app/services/oauth_service.py:46-65 | The encrypted token reaches the row; an empty refresh token is none |
| OAuth.OAuthService.GetAccessToken | app/services/oauth_service.py:67-107 | The decrypted access token and its expiry while more than 60 s are left, else the provider's answer to the decrypted refresh token for an hour, its row updated, else the error |
| OAuth.AlwaysReadable | app/services/oauth_service.py:46-107 | Over every serial run stored ciphertexts decrypt |
| OAuth.RunRepresents | app/services/oauth_service.py:46-107 | Over every serial run the rows encrypt a plaintext state: the access token last stored or refreshed, the refresh token last brought, its expiry and scopes |
| OAuth.RowsAreEncrypted | app/core/security.py:29-33 | Both tokens of every row are the cipher's encryptions of what is held |
| OAuth.AnswerInPlaintext | app/services/oauth_service.py:67-107 | What a fetch answers, in terms of that state |
| OAuth.StoredTokenIsReturned | app/services/oauth_service.py:81-85 | While the token last stored is good for more than 60 s a fetch returns its text and expiry |
| OAuth.StaleTokenIsRefreshed | app/services/oauth_service.py:87-107 | When neither it nor a token answered since is, a fetch returns the provider's answer to the refresh token last stored, for 3600 s |
| OAuth.AnsweredTokenIsReturned | app/services/oauth_service.py:81-85 | While an answered token is good for more than 60 s the next fetch returns the same text and expiry |
| OAuth.NoTokenExactly | app/services/oauth_service.py:70-74 | A fetch finds no token exactly when none was ever stored under the key |
| OAuth.GetExactly | app/services/oauth_service.py:67-107 | Which error a fetch ends in, and what it leaves of the rows |
| OAuth.RefreshableForever | app/repositories/oauth_token.py:33-54 | A refresh token once stored is never dropped, and a fetch then always returns a token |
| OAuth.RefreshTokenUnchanged | app/services/oauth_service.py:87-107 | Until a new initial token, refreshes leave refresh token and scopes as they were |
| OAuth.ReturnedTokenIsFresh | app/services/oauth_service.py:76-107 | A returned token had more than the leeway left when the clock was first read |
| OAuth.RefreshesAreSpaced | app/services/oauth_service.py:76-107 | Two refreshes of one token are at least 3540 seconds apart |
| OAuth.RefreshRate | app/services/oauth_service.py:76-107 | A window of W holds at most 1 + W/3540 s refreshes |
| PixelSync.PixelRepository.GetByMetaId | app/repositories/pixel.py:23-25 | The row that the session sees under the Meta id, if any |
| PixelSync.PixelRepository.UpsertFromMeta | app/repositories/pixel.py:27-52 | Updates the row of the Meta id in place, or inserts one, in the session |
| PixelSync.PixelRepository.ListForAdvertiser | app/repositories/pixel.py:15-21 | Exactly the rows of the advertiser that the session sees |
| PixelSync.PixelSyncService.Reconcile | app/services/pixel_sync_service.py:51-63 | The loop flushes the rows, and gives the counts, of upserting the list in order; nothing else of the session changes |
| Pixels.SyncIsOverride | app/services/pixel_sync_service.py:51-63 | Each Meta id ends as last fetched, under the Hub id it had; other rows are untouched |
| Pixels.OverrideLast | app/services/pixel_sync_service.py:51-63 | The override has the last entry about each pixel, with its name and status |
| Pixels.SyncCounts | app/services/pixel_sync_service.py:51-63 | Created counts the distinct fetched ids that were unknown; created and updated add up to the list's length |
| Pixels.SyncKnows | app/services/pixel_sync_service.py:51-63 | The known Meta ids afterwards are those before and those fetched |
| Pixels.SyncEvolves | app/repositories/pixel.py:37-52 | No row is removed and none changes its Meta id |
| Pixels.KnownPixelsNeverFail | app/repositories/pixel.py:36-52 | When all fetched pixels are known the sync cannot fail |
| Pixels.SyncFailsExactly | app/repositories/pixel.py:36-46 | A sync fails exactly when an id drawn for an unknown pixel is in the table or was drawn before |
| Pixels.SecondSyncIsIdle | app/services/pixel_sync_service.py:51-63 | An immediate second sync creates nothing and leaves the table as it is |

## Left out

- HTTP, routing, dependency wiring, exception handlers, logging, settings, health routes and infrastructure. Answers are modelled as kinds: 201, 404, the two 409s, 502, and any other error.
- Creating advertisers, beyond their appearing in the table. No code changes or removes one.
- SQLAlchemy and Postgres beyond tables, unique keys, flush, row waits, commit and rollback: the identity map (but for a pixel listed twice in a row), deadlock detection, collation. Updates without a difference are left out of `PixelRuns` alone; elsewhere they write what is there.
- One adapter call as a single operation: its count and its body take the lock apart, so the order of counts may differ from that of effects, and `AdapterThreads` orders the two separately.
- Row locks on a resumed tag: no reachable state has such a row, so the machine lets its update overwrite.
- Pixel syncs inside the create machine: they enter it as any change of the pixel table that keeps rows and unique Meta ids; `PixelRuns` has them statement for statement, without their token fetch.
- PixelWaits.StuckExactly: for two syncs whose pixels are all in the table already; a sync that inserts is covered by `PixelWaits.OrderedSyncsMove`.
- Breaking a circle of waiting syncs: the database picks a victim, which `PixelRuns` allows for as a broken statement but does not choose.
- Timestamps, record expiry and the order of listings; none decides an outcome.
- Serving order: an answer is taken to be sent after the commit. The model does not say what a client sees when a commit succeeds and its acknowledgement is lost.
- The text of a decimal is a parameter, and negative zero is not modelled. Values are non-negative, as the request schema demands.
- Lengths and character sets of text columns. The one column limit modelled is that of `Numeric(18, 4)`.
- `hash_request` on lone surrogates, numbers, booleans and lists: payloads of this route have none.
- The real adapter's field mapping and the texts of error messages. The client is modelled for a POST that creates a conversion.
- `_refresh_with_provider`: a stub in the source, here a function from the refresh token to an access token, with no new refresh token and one hour to live.
- Secrecy and tamper resistance of the cipher.
- Serial.ServedAlone: no other request is in flight; a token refreshed or a pixel synced between two of its statements is covered by the theorems about runs.
- OAuth.RefreshesAreSpaced: for fetches that commit one after the other; two overlapping requests may both refresh.
