# Machine payments, modelled and proved

This project models the parts of the Python SDK whose guarantees span many calls, processes or
characters, and proves those guarantees. `dafny verify dfyconfig.toml` checks everything.

| module | models |
|---|---|
| `ChallengeAdmission`, `PayerAdmission` | server processes admitting sponsored charges over a shared compare-and-set store |
| `ExpiryHeap`, `ClaimCache`, `Broadcast` | EVM authorization claims: the cache that remembers them, and the claim, settle, commit or roll back protocol |
| `TextScan`, `QuotedString`, `AuthParams`, `PaymentHeader`, `ChallengeList` | the `WWW-Authenticate: Payment` syntax: printer, scanner, parser, and the splitter for several challenges |
| `PaymentTransport` | the client's 402 retry loop with its open credential attempt |
| `AutoSwap` | funding a Tempo charge: machine-token route, swap, fee token, and the calls put under one signature |
| `SharedSigning` | concurrent calls that await one signing of a charge |
| `Store`, `SqliteStore` | the in-memory and SQLite stores against one table with deadlines |
| `JsonEqual` | the two JSON equalities, recursive and with an explicit stack |
| `Units`, `Arithmetic` | exact decimal amounts |

## How things are modelled

* Protocols are state machines. A store call, a settlement query, or what happens between two
  awaits is one step, and steps of all calls interleave arbitrarily. A call may die at any await.
  Histories in the state (claims issued, attempts removed, changes logged) exist only to state
  properties. A run is a sequence of states and actions, and properties are about every index of
  every run.
* Code that updates objects or loops over indices is a class or a method, proved equal to a
  function of its inputs or of the old state; the lemmas are about that function.
* The world is arbitrary. Servers, payment methods, event handlers, settle callbacks, settle hooks
  and facilitators, RPC reads, quotes and gas estimates may answer anything or fail. Clock
  readings are parameters of the operations that take them. What a Tempo node answers is one record
  of functions (`AutoSwap.Node`), so the builder is a function of its answers; that balances it
  gives are true is a hypothesis of the theorems about them (`AutoSwap.Tells`). What a paying call
  meets, await by await, is another (`PaymentTransport.World`), so that what the call sends, tells and
  returns can be stated by those answers.
* SHA-256 store keys are injective, so a key is the tuple it hashes. A uuid4 attempt id is the
  identity of its call. JSON plus base64url is an inverse pair whose encodings are base64url tokens
  (`PaymentHeader.Inverse`). Signatures and transaction hashes are opaque.
* Token addresses are taken lower-cased. Integers are unbounded, as in Python. Python's floor
  division is only applied to divisors above zero, where Dafny's agrees.

## What the proofs found

* Releasing with `reset_retained=True` takes the record from other holders exactly if the record
  lists another outstanding attempt (`ChallengeAdmission.ResetBreaksExactly`); three calls reach
  such a state for every key (`ChallengeAdmission.ResetReachesBreak`).
* A created payer claim is protected as long as it is released at most once. A release by whatever
  rule leaves a live claim without its record exactly if its transaction is not settled and another
  live claim has the same key and value (`PayerAdmission.ReleaseBreaksExactly`), which a second
  release of one claim can bring about (`PayerAdmission.SecondReleaseBreaksBacking`). The
  repository's own caller keeps the rule: it forgets the claim after one release
  (`src/mpp/methods/tempo/intents.py:2267-2268`).
* An explicit fee token that a swapping batch does not spend is never compared with the fee. Such a
  batch can be paid for exactly if that token covers the fee (`AutoSwap.BuildIsSound`), and the
  builder does sign one that cannot (`AutoSwap.UnspentFeeTokenIsUnchecked`). A batch that needs no
  swap is not compared with its fee either.
* `MemoryStore.compare_and_set` prunes twice. A key that expires between the two prunes has its new
  value stored without any expiry, against its contract for keys that exist already
  (`Store.ExpiryIsKeptExactly`, `Store.ExpiryIsLost`). That, and a comparison of two absences at the
  same moment, are the only differences from SQLite (`SqliteStore.OperationsAgreeExactly`).
* An SQLite claim does not last for ever. Until it is removed it is protected exactly until the
  expiry of the last write to its key: the far sentinel time, or, if that was a `put` in a store
  with a TTL of n seconds, n seconds after it (`SqliteStore.RowClaimIsProtected`,
  `SqliteStore.OverwrittenClaimExpires`). EVM settlement overwrites its claim with such a `put`
  (`src/mpp/methods/evm/intents.py:505-522`), so with a TTL an authorization can be claimed again.
* The two JSON equalities differ exactly on NaN paired with NaN (`JsonEqual.EqualMatchesWithoutNaN`).

## Model

| member | source | states |
|---|---|---|
| ChallengeAdmission.HoldersAgree | src/mpp/methods/tempo/_sponsored_admission.py:73-103 | In every reachable state each returned claim whose release has not removed it is listed in the stored record under its own binding, so all holders of a challenge hold the same hash, payer, currency and amount; only attempts that were listed in a record when it expired or was reset are excepted, not claims won later |
| ChallengeAdmission.RunKeepsHeld | src/mpp/methods/tempo/_sponsored_admission.py:73-103 | The invariant behind it, which also covers claims not yet returned and claims whose call died before returning them |
| ChallengeAdmission.ResetBreaksExactly | src/mpp/methods/tempo/_sponsored_admission.py:202-211 | In any state, a reset takes the record away from some claim that held it if and only if the record lists another outstanding attempt under its binding |
| ChallengeAdmission.ResetReachesBreak | src/mpp/methods/tempo/_sponsored_admission.py:202-211 | For every key and binding, a run of two claims and a reset ends with an outstanding claim whose record is gone |
| ChallengeAdmission.BoundExactlyWhileOutstanding | src/mpp/methods/tempo/_sponsored_admission.py:191-219 | A key first written in this run lists only outstanding attempts, and while no retaining release has marked its record, it is bound if and only if some claim that won it since it last expired or was reset is outstanding |
| ChallengeAdmission.RetainingReleaseBinds | src/mpp/methods/tempo/_sponsored_admission.py:206-213 | A release with `retain=True` that removes its attempt leaves the record bound to its transaction and retained |
| ChallengeAdmission.RetainedForever | src/mpp/methods/tempo/_sponsored_admission.py:91-102 | From then on, without expiry or reset of that key, the record stays bound, no call with another binding wins it, and every such call that reads it is refused as a replay |
| ChallengeAdmission.ContentionIsReal | src/mpp/methods/tempo/_sponsored_admission.py:73-103 | A claim or an attempt-carrying release gives up only after at least a hundred changes of its key by others during that call |
| ChallengeAdmission.ClaimsAreNamed | src/mpp/methods/tempo/_sponsored_admission.py:62-72 | Over any run, no claim is returned without a challenge id, and every key is scoped by its payer |
| ChallengeAdmission.TriesAreBounded | src/mpp/methods/tempo/_sponsored_admission.py:73-103 | A call tries at most a hundred times, and gives up for contention only after all of them |
| ChallengeAdmission.FreeKeyIsClaimed | src/mpp/methods/tempo/_sponsored_admission.py:73-80 | An undisturbed claim of a free key creates its record and returns a created claim |
| ChallengeAdmission.BoundKeyIsShared | src/mpp/methods/tempo/_sponsored_admission.py:81-102 | An undisturbed claim of a bound key joins the record if the binding is its own, and is refused as a replay, changing nothing, if it is not |
| ChallengeAdmission.RecordsAreJudged | src/mpp/methods/tempo/_sponsored_admission.py:81-93 | An undisturbed claim refuses as malformed what is no JSON object or has its own binding and unreadable ownership, as a replay any other object with another binding, and leaves them as they are |
| ChallengeAdmission.ReleaseLeavesOthers | src/mpp/methods/tempo/_sponsored_admission.py:191-219 | An undisturbed release, plain, retaining or resetting, takes out its attempt wherever it is listed, keeps the others in order with the retained mark, and deletes the record exactly on a reset or if neither others nor mark remain |
| ChallengeAdmission.ForeignRecordsAreKept | src/mpp/methods/tempo/_sponsored_admission.py:196-205 | A release leaves alone a missing record, one with another binding, and one that does not list its attempt, and fails on one it cannot read |
| ChallengeAdmission.ClaimIsReturned | src/mpp/methods/tempo/_sponsored_admission.py:73-102 | An undisturbed claim of a free or equally bound key is returned and listed last, and touches nothing else |
| ChallengeAdmission.ReleaseUndoesClaim | src/mpp/methods/tempo/_sponsored_admission.py:49-219 | Claiming and then releasing leaves the store exactly as it was, for free and for shared keys |
| PayerAdmission.CreatedClaimsAreBacked | src/mpp/methods/tempo/_sponsored_admission.py:132-165 | Each created claim not yet given to release is still stored, unchanged, under its payer key, or its receipt hash was reported settled |
| PayerAdmission.OnePendingPerPayer | src/mpp/methods/tempo/_sponsored_admission.py:132-165 | Two outstanding created claims of one chain and payer imply that one of them was reported settled |
| PayerAdmission.ClaimsAnswerRequests | src/mpp/methods/tempo/_sponsored_admission.py:106-165 | Over any run, every returned claim has its requester's key and hash; one it did not create comes only from a reconciling call, and was stored when returned or was past its expiry |
| PayerAdmission.RefusalsAreJustified | src/mpp/methods/tempo/_sponsored_admission.py:106-165 | Over any run, a refusal as malformed, as another pending transaction or as not settled rests on a record the call read, and the last two on having waited it out and, if the call can ask, on the answer that it is not settled |
| PayerAdmission.SettledWasReported | src/mpp/methods/tempo/_sponsored_admission.py:132-165 | A receipt hash counts as settled only since a query about a record with it was answered so |
| PayerAdmission.TriesAreBounded | src/mpp/methods/tempo/_sponsored_admission.py:133-166 | A call reads the record at most two hundred times, and gives up for contention only after all of them |
| PayerAdmission.ExpiredIsNotClaimed | src/mpp/methods/tempo/_sponsored_admission.py:129-131 | Over any run, a reconciling call whose transaction had expired when it began never creates a claim nor touches the store |
| PayerAdmission.FreeKeyIsClaimed | src/mpp/methods/tempo/_sponsored_admission.py:132-165 | An undisturbed claim of a free key stores what was asked and returns it as created |
| PayerAdmission.ReconciledIsReturned | src/mpp/methods/tempo/_sponsored_admission.py:129-141 | An undisturbed reconciling call is given its own transaction's record as it is stored, or, past its expiry, as it would be |
| PayerAdmission.SettledGivesWay | src/mpp/methods/tempo/_sponsored_admission.py:145-165 | An undisturbed claim that learns that the record's transaction is settled takes the record out and claims the key |
| PayerAdmission.HeldKeyIsRefused | src/mpp/methods/tempo/_sponsored_admission.py:145-161 | Against an unsettled record that has expired, or with no time left, a claim is refused, by the error its hash and mode call for, and the store stays as it is |
| PayerAdmission.UnreadableIsRefused | src/mpp/methods/tempo/_sponsored_admission.py:136-144 | A record that cannot be read is an error and stays |
| PayerAdmission.AsksExactly | src/mpp/methods/tempo/_sponsored_admission.py:145-149 | A record already known to be pending is not asked about again before the deadline; any other, and every one from the deadline on, is |
| PayerAdmission.RunKeepsBacked | src/mpp/methods/tempo/_sponsored_admission.py:183-218 | The invariant behind both, kept by claims, evictions of settled records, releases and deaths at any await |
| PayerAdmission.ReleaseBreaksExactly | src/mpp/methods/tempo/_sponsored_admission.py:191-218 | By whatever rule callers release, a deleting release leaves some live claim neither stored nor settled if and only if its transaction is not settled and another live claim has its key and value |
| PayerAdmission.RunKeepsReturnedOver | src/mpp/methods/tempo/_sponsored_admission.py:106-218 | Over any run, with no rule for callers, a call that returned its claim never returns another |
| PayerAdmission.SecondReleaseBreaksBacking | src/mpp/methods/tempo/_sponsored_admission.py:191-218 | Without the rule that a created claim is released at most once the guarantee fails, for every request |
| ExpiryHeap.Push | src/mpp/methods/evm/intents.py:84-90 | Pushing keeps the min-heap order and adds exactly the entry |
| ExpiryHeap.Pop | src/mpp/methods/evm/intents.py:92-94 | Popping returns the root, keeps the heap order and the other entries |
| ExpiryHeap.SiftDown | src/mpp/methods/evm/intents.py:92-97 | Sinking one entry extends the heap order to it and permutes the entries |
| ExpiryHeap.Heapify | src/mpp/methods/evm/intents.py:90-91 | Rebuilding gives a heap of the same entries |
| ExpiryHeap.RootIsLeast | src/mpp/methods/evm/intents.py:92-94 | No entry expires before the root |
| ExpiryHeap.OrderIsTotal | src/mpp/methods/evm/intents.py:84-94 | Entries are totally ordered, by expiry and then by key |
| ClaimCache.Cache.TrackUntil | src/mpp/methods/evm/intents.py:84-91 | Tracks the claim's expiry; afterwards the heap has at most twice the tracked claims plus 1024 entries, and all entries ever kept by compactions number at most the calls made |
| ClaimCache.Cache.PruneExpired | src/mpp/methods/evm/intents.py:92-97 | Removes from claims and expiries exactly the keys whose current expiry has come: stale heap entries evict nothing, and no expired tracked claim survives |
| ClaimCache.Cache.Claim | src/mpp/methods/evm/intents.py:99-106 | Prunes, then refuses a held key or a full cache, else stores the claim |
| ClaimCache.Cache.Remove | src/mpp/methods/evm/intents.py:108-110 | Removes claim and expiry, leaving the stale heap entry harmless |
| ClaimCache.Cache.Store | src/mpp/store.py:100-103 | Overwrites the value and leaves every expiry alone |
| ClaimCache.EntriesOf | src/mpp/methods/evm/intents.py:90 | Compaction keeps one entry per tracked expiry |
| ClaimCache.TrackedClaimHolds | src/mpp/methods/evm/intents.py:65-110 | Over any history of claims, rollbacks, stores and prunes, a tracked claim is held and refuses a second one before its expiry, and does not afterwards |
| ClaimCache.RefusedUntilGraceEnds | src/mpp/methods/evm/intents.py:84-106 | A claim tracked for an authorization refuses others if and only if the clock reads less than its `validBefore` plus 60 seconds, over any history without its removal |
| Broadcast.SingleSettlement | src/mpp/methods/evm/intents.py:497-522 | Over any run of concurrent broadcasts and an unexpired claim, settlements of one key never overlap and each later one follows an answer that proves the one before paid nothing |
| Broadcast.NeverEnteredOnceSpent | src/mpp/methods/evm/intents.py:497-575 | After a settlement answered in any way that does not prove that nothing was paid, or one that died, none of that key starts again |
| Broadcast.RunKeepsProtected | src/mpp/methods/evm/intents.py:504-522 | At most one call holds a key between claim and rollback, a held key is stored, and a key that may have paid stays stored |
| Broadcast.OutcomeIs | src/mpp/methods/evm/intents.py:524-575 | Nothing counts as settled exactly if the hook raised one of the two rollback errors or the facilitator refused without a pending transfer; a reference is settled exactly if the hook or a successful facilitator gave it, non-empty |
| Broadcast.KeyIsFreedExactly | src/mpp/methods/evm/intents.py:513-522 | An undisturbed settlement frees its key for the same authorization if and only if its answer proves that nothing was paid; it returns and stores a reference if and only if the answer gives it; any other error keeps the claim |
| Broadcast.ClaimIsRefusedExactly | src/mpp/methods/evm/intents.py:497-512 | A claim is a replay exactly if its key is stored and out of room exactly if the key is free and the cache full, without a trace; once a claim expires its key can be claimed again |
| QuotedString.EscapeQuoted | src/mpp/_parsing.py:97-116 | The printer escapes character by character; it prints exactly texts without line breaks, and without line breaks |
| QuotedString.EscapeIsLatin1 | src/mpp/_parsing.py:97-116 | Every printed character is at most U+00FF |
| QuotedString.UnescapeQuoted | src/mpp/_parsing.py:129-161 | The decoding loop computes the decoding |
| QuotedString.DecodeAt | src/mpp/_parsing.py:131-160 | One round of the decoder takes a character, a quoted-pair, a lone backslash at the end, or an escape with its low half, and a lone surrogate becomes U+FFFD |
| QuotedString.ReadsEitherCase | src/mpp/_parsing.py:119-126 | The four hex digits of an escape are read in either case |
| QuotedString.UnescapeEscape | src/mpp/_parsing.py:97-161 | Decoding undoes printing for every string of Unicode scalar values |
| QuotedString.ReadQuotedAuthParam | src/mpp/_parsing.py:218-231 | The scanning loop finds the first quote that is not escaped and decodes what precedes it |
| QuotedString.ScanEscape | src/mpp/_parsing.py:97-116 | Scanning printed text, a quote and any rest stops exactly at that quote |
| QuotedString.ReadQuotedEscape | src/mpp/_parsing.py:218-231 | Reading a printed quoted-string gives the string back and leaves the rest |
| AuthParams.ParseAuthParams | src/mpp/_parsing.py:170-215 | The index-advancing parser computes the sequential parse of its text, with its size limit and its errors for malformed, unterminated and duplicate parameters |
| AuthParams.ReadParamAt | src/mpp/_parsing.py:176-214 | One round of the parser reads one parameter and says where the next begins |
| AuthParams.ReadPrinted | src/mpp/_parsing.py:170-215 | A printed parameter is read whole, whatever its value contains |
| AuthParams.ParseJoined | src/mpp/_parsing.py:170-215 | Parsing a printed list gives back exactly its parameters |
| AuthParams.KeyCharsAre | src/mpp/_parsing.py:39-40 | The characters of an auth-param name, by code point |
| PaymentHeader.ParseWwwAuthenticate | src/mpp/_parsing.py:234-316 | The parser checks size, scheme and fields in order and returns the challenge or the first error |
| PaymentHeader.ParseFormat | src/mpp/_parsing.py:319-350 | Parsing a printed challenge gives it back, empty optional fields becoming absent, whatever the case of its scheme |
| PaymentHeader.FormatIsOneLine | src/mpp/_parsing.py:319-350 | A challenge is printed exactly if each field shown is free of line breaks, and then so is the header value |
| PaymentHeader.AcceptedExactly | src/mpp/_parsing.py:252-316 | A challenge is accepted if and only if its five required fields are there and its method, payloads, header name, digest and expiry have their syntax, and then holds each field in its place |
| PaymentHeader.RefusalIsJust | src/mpp/_parsing.py:252-302 | Each refusal names a field that is missing or malformed |
| PaymentHeader.OpaqueIsEchoed | src/mpp/__init__.py:394-405 | A challenge read and printed again echoes its opaque text if that is strict base64url, and otherwise its encoding |
| PaymentHeader.SchemeIsChecked | src/mpp/_parsing.py:243-249 | A text above the size limit, or of another scheme, is not read any further |
| PaymentHeader.WrittenIsDateTime | src/mpp/_parsing.py:51-59 | Every date-time written from its parts, with or without a fraction and with Z or an offset, is accepted |
| PaymentHeader.DateTimeIsWritten | src/mpp/_parsing.py:51-59 | Every date-time accepted is so written |
| PaymentHeader.PaddedIsBase64Url | src/mpp/_parsing.py:69 | A token with up to two padding characters is strict base64url |
| PaymentHeader.Base64UrlIsPadded | src/mpp/_parsing.py:69 | Nothing else is |
| PaymentHeader.MethodCharsAre | src/mpp/_parsing.py:38 | Method names are made of lower-case letters, digits and three marks, beginning with a letter |
| PaymentHeader.HeaderCharsAre | src/mpp/__init__.py:69-80 | Header names are made of visible ASCII without delimiters |
| TextScan.StripPadded | src/mpp/_parsing.py:246-252 | Stripping takes away the white space around a text and nothing else |
| TextScan.SpacesAre | src/mpp/_parsing.py:183 | The characters taken as white space, by code point |
| TextScan.LowerIs | src/mpp/_parsing.py:249 | Lower-casing maps each ASCII capital to its small letter and changes nothing else |
| TextScan.HexDigitsAre | src/mpp/_parsing.py:124 | A hex digit is one of the sixteen in either case, and has its value |
| ChallengeList.SplitAtCommas | src/mpp/client/transport.py:894-907 | The flag-driven loop splits exactly at the commas outside quotes |
| ChallengeList.PaymentChallenges | src/mpp/client/transport.py:890-921 | The splitter's loops compute the fields grouped by scheme, those of the Payment scheme kept |
| ChallengeList.PrintIsClosed | src/mpp/client/transport.py:896-906 | A printed parameter leaves the splitter's flags closed and shows it no comma, whatever its value |
| ChallengeList.FormBegins | src/mpp/client/transport.py:909-917 | The first field of a printed challenge is recognized as the beginning of one, and kept exactly if its scheme is Payment in any case |
| ChallengeList.SpacedParamContinues | src/mpp/client/transport.py:911-919 | A parameter with white space around its equals sign begins no challenge, and so stays with its own |
| ChallengeList.OtherTextBegins | src/mpp/client/transport.py:911-917 | A name followed by a space and anything but an equals sign begins a challenge |
| ChallengeList.SplitJoined | src/mpp/client/transport.py:890-921 | Splitting joined challenges, printed with any schemes in any case or bare, gives back exactly the Payment ones, in order |
| ChallengeList.WireRoundTrip | src/mpp/client/transport.py:890-921 | Any list of valid challenges within the size limits, with challenges of other schemes anywhere among them, survives printing, joining, splitting and parsing: exactly the Payment challenges come back, in order |
| PaymentTransport.HandleRequest | src/mpp/client/transport.py:358-727 | Whatever the world does, the call's log satisfies the monitor, no attempt is left without a final outcome and no credential due is left unsent, credentialed sends stay within the bound, and the exit is explained by what the world answered before it; a first reply other than 402 is returned at once |
| PaymentTransport.RetryLoop | src/mpp/client/transport.py:365-712 | The loop keeps the monitor's state and its own in agreement, and at every exit the reason for leaving holds |
| PaymentTransport.Try | src/mpp/client/transport.py:502-712 | One retry keeps or creates a credential, encodes it and sends it; it goes on only with a reply, and otherwise the reason for leaving holds |
| PaymentTransport.FirstLocalIs | src/mpp/client/transport.py:456-484 | The candidate paid is the first one not for another host; there is none exactly if all are for others |
| PaymentTransport.SettleAttempt | src/mpp/client/transport.py:753-762 | Tells a tracked attempt what it must be told, once, and disarms it exactly if it settled |
| PaymentTransport.FinishAttempt | src/mpp/client/transport.py:650-667 | A paid reply other than 402 is told, and told again as rejected exactly if the method did not settle |
| PaymentTransport.CreateCredential | src/mpp/client/transport.py:530-569 | A credential created is open and due; a failed creation rejects the attempt the method tracked |
| PaymentTransport.Reconsider | src/mpp/client/transport.py:502-525 | After a further 402 the credential is kept, and due again, only if challenge and method are the same and the method has not settled, and a pushed one makes that 402 final |
| PaymentTransport.SendPaid | src/mpp/client/transport.py:619-625 | Sends exactly the credential due, and logs the reply if there is one |
| PaymentTransport.Pay | src/mpp/client/transport.py:619-712 | After a paid reply other than 402 nothing is held or owed; after another 402 the credential is still held |
| PaymentTransport.WhyUnpaid | src/mpp/client/transport.py:365-604 | A 402 reaches the caller only after as many paid requests as are allowed, after a pushed, x402 or evm/charge credential, if a paid request brought no payable challenge, or because the challenge turned out invalid or expired |
| PaymentTransport.WhyRaised | src/mpp/client/transport.py:378-712 | Faced with a 402 the call raises only if the challenge may not be paid or its credential failed; after a paid reply, only if an error body or the event about it failed |
| PaymentTransport.CreatedIsAllowed | src/mpp/client/transport.py:428-490 | A credential is created only for an allowed origin and a replayable body, for the first challenge that is not for another host |
| PaymentTransport.EveryCredentialIsSent | src/mpp/client/transport.py:530-622 | Every credential created is sent at once unless it cannot be encoded, whether its method keeps a callback or not |
| PaymentTransport.KeptIsSentAgain | src/mpp/client/transport.py:516-622 | A credential its method keeps after a further 402 is the one that 402 answered, and it is sent again |
| PaymentTransport.PaidIsDue | src/mpp/client/transport.py:526-622 | Nothing is sent but a credential just created or just kept |
| PaymentTransport.OutcomeIsTold | src/mpp/client/transport.py:650-667 | Right after a paid reply other than 402 a tracked attempt is told that it is accepted, pending or rejected, by the class of the status code |
| PaymentTransport.LastReplyIsReturned | src/mpp/client/transport.py:622-714 | A response handed to the caller is the answer to the last request sent, every request before it having been answered 402 |
| PaymentTransport.WillingWorldIsPaid | src/mpp/client/transport.py:358-714 | A payable challenge whose credential can be created and encoded is paid, and if nothing then goes wrong the caller gets the answer to that one paid request |
| PaymentTransport.OneAttemptAtATime | src/mpp/client/transport.py:502-569 | Before another attempt begins, and before the call leaves, each tracked attempt was settled by its callback or told of a rejection |
| PaymentTransport.SettledOnce | src/mpp/client/transport.py:753-762 | A callback that returned true is never called again |
| PaymentTransport.NoSecondPayment | src/mpp/client/transport.py:365-373 | After a pushed, x402 or evm/charge credential no other is begun or created; only that one is sent, and an x402 or evm/charge one at most once |
| PaymentTransport.NothingAfterAnswer | src/mpp/client/transport.py:366-367 | Nothing is sent or begun after a reply other than 402 |
| PaymentTransport.SendsAreCounted | src/mpp/client/transport.py:365 | The bound counts every credentialed send |
| AutoSwap.FindSwap | src/mpp/methods/tempo/client.py:167-223 | The candidate loop computes what one exchange with the node leads to |
| AutoSwap.FoundTopsUp | src/mpp/methods/tempo/client.py:136-223 | With true balances: no calls exactly when enough is known to be held; an error exactly when a swap is needed and the currency may not be bought; else a swap of exactly the shortfall from the first candidate whose quote plus slippage, in whole hundredths of a percent rounded down, is known to be held, or insufficient funds exactly when there is none |
| AutoSwap.MaxIn | src/mpp/methods/tempo/client.py:206 | The maximum input exceeds the quote by exactly the whole part of the quote times the basis points over ten thousand |
| AutoSwap.SlippageBps | src/mpp/methods/tempo/client.py:192 | The basis points are a hundred times the slippage, rounded half up |
| AutoSwap.FirstFunder | src/mpp/methods/tempo/client.py:192-206 | The candidate taken can fund the swap and none before it can |
| AutoSwap.CandidatesAre | src/mpp/methods/tempo/client.py:168-172 | Candidates are the configured currencies other than the one bought, narrowed to one on request |
| AutoSwap.CandidatesInOrder | src/mpp/methods/tempo/client.py:168-172 | They are tried in the order configured |
| AutoSwap.ChosenComeFirst | src/mpp/methods/tempo/client.py:127-133 | Chosen currencies come first; defaults follow unless chosen already or switched off |
| AutoSwap.ResolveFeeToken | src/mpp/methods/tempo/client.py:416-425 | The loop computes the first fee token known to cover the fee besides what the batch spends |
| AutoSwap.ResolvedPays | src/mpp/methods/tempo/client.py:403-425 | With true balances the token resolved covers fee and spending; with a reliable node none resolves exactly if none covers them, and no earlier token does |
| AutoSwap.FeeRequirement | src/mpp/methods/tempo/client.py:1019-1024 | The least whole number of microdollars, at least one, that covers gas times price |
| AutoSwap.PayFromGiven | src/mpp/methods/tempo/client.py:1029-1085 | The path of a named fee token, with its rebuilds, computes its specification |
| AutoSwap.PayFromSupported | src/mpp/methods/tempo/client.py:1086-1160 | The default path, with its rebuilds, computes its specification |
| AutoSwap.GivenKeepsFee | src/mpp/methods/tempo/client.py:1029-1085 | With a named fee token that the batch spends, the signed funding leaves the fee untouched; it is rebuilt only if need be, and then no longer spends that token unless it is the charge currency |
| AutoSwap.GivenIsRebuilt | src/mpp/methods/tempo/client.py:1029-1085 | Without room for the fee the batch is rebuilt, buying the fee as well or swapping from another currency, and is signed exactly if the fee by its own gas fits |
| AutoSwap.SupportedKeepsFee | src/mpp/methods/tempo/client.py:1086-1160 | On the default path the chosen token is supported and the final funding leaves the final fee untouched; it is rebuilt only if no supported token can pay, and only for a currency that can |
| AutoSwap.SupportedIsRebuilt | src/mpp/methods/tempo/client.py:1086-1160 | When no supported token has room for the fee, the fee is bought as well; if that frees another token only the amount is bought, from the same currency; a charge currency that cannot pay fees is an error |
| AutoSwap.OthersInOrder | src/mpp/methods/tempo/client.py:1112-1150 | Other currencies are tried in the order configured, up to the first whose swap is not short of funds |
| AutoSwap.PlannedExactly | src/mpp/methods/tempo/client.py:1019-1160 | A batch that was changed is signed with the first supported token that has room for the fee by its own gas |
| AutoSwap.BuildTransfer | src/mpp/methods/tempo/client.py:930-1180 | The builder computes, from the node's answers alone, the batch it signs or its error: transfers, machine-token route, swap, gas, fee token and the last checks |
| AutoSwap.BuildIsSound | src/mpp/methods/tempo/client.py:930-1180 | With true balances every batch that reaches signing buys at most the charge, stays within the fee budget, and, if it swaps on the default path or spends its named fee token, can be charged its fee first and then run with no balance or allowance below zero, whatever the exchange takes up to its maximum; in every other unsponsored case, the machine-token route included, the exact condition is given |
| AutoSwap.HeldChargeIsSigned | src/mpp/methods/tempo/client.py:930-1180 | With a reliable node, a charge the payer holds and that needs no other fee token is signed without a swap, or refused exactly by the fee limits |
| AutoSwap.RouteRuns | src/mpp/methods/tempo/client.py:932-951 | A machine-token batch runs if and only if the balance covers the charge |
| AutoSwap.RoutedExactly | src/mpp/methods/tempo/client.py:932-951 | The machine-token route is taken exactly for one positive transfer that a known balance covers and that simulates |
| AutoSwap.GasIsForTheBatch | src/mpp/methods/tempo/client.py:952-1018 | The gas limit signed comes from the estimate for the batch signed, estimated again if its funding changed, with the margin for its kind |
| AutoSwap.KeptFeeIsSolvent | src/mpp/methods/tempo/client.py:1020-1160 | A fee kept out of what the funding spends can be charged first, and approve, swap and transfers then run |
| AutoSwap.SwapThenTransfers | src/mpp/methods/tempo/client.py:207-222 | Approve, swap and transfers run for every input up to the maximum |
| AutoSwap.TransfersRun | src/mpp/methods/tempo/client.py:903-924 | Transfers run if and only if the balance covers their sum |
| AutoSwap.PlainBatch | src/mpp/methods/tempo/client.py:1086-1096 | Without a swap a batch is paid for if and only if the balances cover amount and fee |
| AutoSwap.TransfersPayTheCharge | src/mpp/methods/tempo/intents.py:325-378 | A charge is divided into a positive rest and at most ten positive splits that add up to it, or left whole; it is refused exactly if it cannot be |
| AutoSwap.UnspentFeeTokenIsUnchecked | src/mpp/methods/tempo/client.py:1029-1034 | For a concrete node with true answers the builder signs a swapping batch whose named fee token cannot pay the fee |
| SharedSigning.TempoMethod.Enter | src/mpp/methods/tempo/client.py:656-679 | Joins the key's signing or starts one, and counts the caller |
| SharedSigning.TempoMethod.BeginSubmission | src/mpp/methods/tempo/client.py:773-780 | Submits if a caller is counted, else cancels the task |
| SharedSigning.TempoMethod.Finished | src/mpp/methods/tempo/client.py:671-676 | The completion callback removes the key's signing |
| SharedSigning.TempoMethod.Exit | src/mpp/methods/tempo/client.py:680-696 | The caller leaves with the task's end, or cancelled with the hash if it was submitted, and is no longer counted |
| SharedSigning.OneSigningPerKey | src/mpp/methods/tempo/client.py:656-679 | At most one signing of a key is unfinished, and a further call would share it |
| SharedSigning.WaitersAreCounted | src/mpp/methods/tempo/client.py:679-696 | The counter is the number of calls that joined and have not left, and the entry exists exactly while there is one |
| SharedSigning.SubmittedOnlyWhileWanted | src/mpp/methods/tempo/client.py:773-780 | A push submission begins if and only if some call waits for that very task; with none left the task is cancelled |
| SharedSigning.SubmissionIsReported | src/mpp/methods/tempo/client.py:680-690 | A call waiting for a task that has submitted never leaves by a bare cancellation; every call leaves exactly as its task ended or, if cut short, with the hash exactly if there was a submission |
| Store.MemoryStore.PruneExpired | src/mpp/store.py:80-85 | Keeps exactly the keys without a deadline or with a later one |
| Store.MemoryStore.CheckCapacity | src/mpp/store.py:87-94 | Prunes and reports whether the key may be written |
| Store.MemoryStore.Get | src/mpp/store.py:96-98 | Prunes and looks the key up |
| Store.MemoryStore.Put | src/mpp/store.py:100-103 | Writes the value without a deadline, or fails at capacity |
| Store.MemoryStore.Delete | src/mpp/store.py:105-107 | Removes value and deadline |
| Store.MemoryStore.PutIfAbsent | src/mpp/store.py:109-115 | Inserts an absent key for good, or reports a duplicate or no room |
| Store.MemoryStore.PutIfAbsentUntil | src/mpp/store.py:117-122 | The same with a deadline that must lie in the future |
| Store.MemoryStore.CompareAndSet | src/mpp/store.py:124-133 | Compares after one prune and writes after another |
| Store.NoLiveKeyIsEvicted | src/mpp/store.py:68-70 | Only a deletion removes a live key, and only a write to it changes it |
| Store.CapIsKept | src/mpp/store.py:87-94 | No operation exceeds `max_entries` |
| Store.WritesAreRead | src/mpp/store.py:87-133 | A write that is due succeeds if and only if there is room for its key, is refused for room otherwise, and what it wrote is there |
| Store.ClaimIsProtected | src/mpp/store.py:26-27 | Over any run, a successful claim refuses every later one until it is deleted |
| Store.ExpiryIsKeptExactly | src/mpp/store.py:55-57 | A compared and replaced value keeps its key's expiry if and only if the key does not expire between the two prunes |
| Store.ExpiryIsLost | src/mpp/store.py:124-133 | A concrete replacement after which the key never expires |
| SqliteStore.SQLiteStore.Get | src/mpp/stores/sqlite.py:93-100 | Finds an unexpired row |
| SqliteStore.SQLiteStore.Put | src/mpp/stores/sqlite.py:102-110 | Prunes and upserts with the store's TTL |
| SqliteStore.SQLiteStore.Delete | src/mpp/stores/sqlite.py:112-114 | Deletes the row |
| SqliteStore.SQLiteStore.PutIfAbsent | src/mpp/stores/sqlite.py:116-125 | Prunes and inserts with the sentinel expiry unless the row exists |
| SqliteStore.SQLiteStore.PutIfAbsentUntil | src/mpp/stores/sqlite.py:127-130 | The same with a given future expiry |
| SqliteStore.SQLiteStore.CompareAndSet | src/mpp/stores/sqlite.py:132-152 | One conditional statement on key and value; two absences are compared by a second read |
| SqliteStore.OperationsAgreeExactly | src/mpp/stores/sqlite.py:93-162 | From the same live keys, without cap or TTL and before the sentinel, both backends reply alike and hold the same live keys afterwards if and only if the operation is not a comparison its key's expiry interrupts |
| SqliteStore.BackendsAgree | src/mpp/stores/sqlite.py:93-162 | Both backends give the same reply to every operation of a run without such a comparison |
| SqliteStore.RowClaimIsProtected | src/mpp/stores/sqlite.py:102-125 | Over any run with one clock, a claim that is never removed refuses a further one exactly until the expiry of the last write to its key |
| SqliteStore.RowLastsExactly | src/mpp/stores/sqlite.py:85-125 | A row lasts exactly until the expiry that its last insert or put gave it, whatever is read, refused or exchanged meanwhile |
| SqliteStore.OverwrittenClaimExpires | src/mpp/stores/sqlite.py:102-110 | After a claim is overwritten by a put with a TTL of n seconds, a further claim succeeds if and only if its prune reads at least n seconds after that put |
| SqliteStore.SettledClaimIsFreed | src/mpp/stores/sqlite.py:102-125 | Concretely, with a TTL of sixty seconds: refused half a second before, accepted at the sixty-first |
| JsonEqual.EqualByStack | src/mpp/__init__.py:195-228 | The explicit stack terminates on every pair of values, computes the equality that matches NaN with NaN, and on NaN-free values the recursive one |
| JsonEqual.EqualMatchesWithoutNaN | src/mpp/x402/_types.py:275-287 | The recursive equality holds if and only if the matching one does and there is no NaN |
| JsonEqual.EqualToItself | src/mpp/x402/_types.py:275-287 | A decoded value equals itself if and only if it holds no NaN |
| JsonEqual.NumbersEqualByValue | src/mpp/x402/_types.py:285-287 | A number equals exactly the numbers of the same value, whether integer or float, and NaN none |
| JsonEqual.MatchesEitherWay | src/mpp/__init__.py:195-228 | Equality is symmetric |
| JsonEqual.MatchesThrough | src/mpp/__init__.py:195-228 | Equality is transitive on decoded values |
| JsonEqual.MemberOrderIsIrrelevant | src/mpp/__init__.py:207-212 | Reordering the members of an object changes neither equality with anything, on either side |
| Units.ScaleIsExact | src/mpp/_units.py:36-59 | Scaling returns n if and only if the decimal denotes exactly n base units and, for an upward shift, n has at most 78 digits; it is fractional only if there is no such n |
| Units.EarlyRejectionAgrees | src/mpp/_units.py:53-55 | What is rejected before dividing would have left a remainder |
| Units.DigitBoundIsExact | src/mpp/_units.py:48-51 | Counting digits before scaling refuses exactly the results of more than 78 digits |
| Units.PowerIsBounded | src/mpp/_units.py:44-56 | No power of ten above 10^77 is built, unless the input has as many digits |
| Units.AmountIsExact | src/mpp/_units.py:22-59 | An amount in any notation, with sign, point, exponent and white space around it, is converted to n if and only if it is worth exactly n base units, is not below zero, and an upward shift keeps it within 78 digits |
| Units.LiteralReads | src/mpp/_units.py:66-82 | Every decimal is read with its sign, its digits, and its written exponent less the digits after the point |
| Units.OnlyLiteralsRead | src/mpp/_units.py:66-82 | Whatever is read as a number is written as such a decimal |
| Units.SpecialReads | src/mpp/_units.py:72-80 | Infinities and NaNs, in any case and with a sign, are read as not finite |
| Units.OthersAreRefused | src/mpp/_units.py:66-80 | Everything else is refused: as missing if blank, as not finite if an infinity or a NaN, and otherwise as invalid |
| Units.BoundIsWide | src/mpp/_units.py:19 | Seventy-eight digits hold every 256-bit amount, and no fewer do |
| Units.PrintedIsShortest | src/mpp/x402/_negotiator.py:262-266 | What is printed is worth the value and has no needless zero, sign or exponent |
| Units.ParseIsExact | src/mpp/_units.py:22-59 | Every successful parse, of any string, is the exact value, and a negative one is zero |
| Units.ParsedIsNormal | src/mpp/_units.py:66-82 | A parsed coefficient has no leading zeros |
| Units.ParseFormat | src/mpp/x402/_negotiator.py:262-266 | Parsing printed base units gives them back up to 78 digits, and refuses larger ones |

## Left out

- RedisStore, and values stored as bytes with the second compare-and-set they need: their semantics live outside this repository's Python.
- tempo/intents.py callers of the admission functions, and sessions.
- HTTP, ASGI, JSON-RPC, event payloads, response buffering, redirects of the original request, and credentials the caller supplied: only whether a step returns, raises or is cancelled is kept.
- ChallengeAdmission.HoldersAgree: says nothing of attempts that a record listed when it expired or was reset; the reset case is decided exactly by another lemma.
- ChallengeAdmission: the startup probe of the store, and case folding of payer, hash and currency, which are taken as already folded.
- PayerAdmission.CreatedClaimsAreBacked: assumes callers release a created claim at most once and release others only once settled; what breaks without that rule is decided exactly by another lemma.
- PayerAdmission: a stored document is either a pending transaction or unreadable; partly malformed fields are one error.
- Broadcast.SingleSettlement: says nothing after the claim itself expired from the store, as with a TTL on `put`.
- ExpiryHeap: the heap library is not part of this repository; sift-up and sift-down with swaps stand for it, with the same order of entries.
- ClaimCache: clock readings are whole seconds, which compare with whole expiries as their fractions do.
- PaymentHeader: the digest and timestamp checks are taken as their syntax; calendar ranges of dates are not checked. Authorization and receipt headers use the same quoted strings and are not repeated.
- QuotedString.UnescapeEscape: strings with lone surrogates, which Python can hold and HTTP cannot, are outside the character type.
- PaymentTransport.HandleRequest: assumes settle callbacks return; a callback that raises or is cancelled is not modelled.
- PaymentTransport: the order of the candidates is the caller's, and which of them ask for a proof for another host is part of them; failure events are only part of whether a step raises.
- AutoSwap: quotes and balances are non-negative words; fee policy is reduced to its price and total limits; nonces and the sponsored envelope's time check are not modelled. Memos only bear on the existence of a machine-token route, which is part of the terms; its simulation is one answer of the node.
- SharedSigning.SubmittedOnlyWhileWanted: rests on the event loop resuming what it queued in order, which is one condition on submitting (`Resumed`) rather than a model of the queue.
- SqliteStore: the statements of one operation are not interleaved with other connections, and values compare as texts.
- Store: float time is a real number; `None` is never a stored value.
- Units.ParseIsExact: decimal strings are ASCII; underscores, other Unicode digits, the interpreter's limit on long digit strings and the decimal module's exponent limits are not modelled.
- Units: `transform_units`, which applies the parser to two fields, adds nothing of its own.
