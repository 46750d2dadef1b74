# A Dafny model of K2's widget runtime, release signer and small algorithms

This project models five parts of the K2 repository and proves what they are for, over every input and every run.

- **The widget runtime** (`sdk/k2-runtime.js`): the SHA-256 over JavaScript numbers, the cutting of a text into chunks
  and of operations into transaction parts, `putChunked` and `getChunked` alone and interleaved with failures, the
  message transport with its early queue, and the retrying subscription with its list of callback-form watches.
- **The release signer** (`scripts/k2sign/k2sign.py`): challenges, approvals, signing sessions, the first-hash record
  and the audit log, as one atomic step a verb; and the block-by-block search for an NSIS header.
- **Canonical JSON** (`scripts/ci/compute_release.py`).
- **The dependency closure and the licence check** (`scripts/zen-lib/vendor.ts`), the latter on text.
- **The daemon client's query** (`src-tauri/src/daemon_client.rs`) and the decoder beside it.

Each component that changes its variables step by step is a state datatype with step functions, a class or a method
with loops that does the same in place and is proved equal to it, and lemmas about every run of the steps. The `Valid()`
of a class is the invariant of those runs, and every method that handles an event keeps it. The modules follow the
components: `Basics`, `Utf16`, `Words`, `Sha256`, `RoundConstants`; `JsonReader` (a reader of RFC 8259 texts, by which
both writers of JSON are measured), `Json`, `JsonText`; `Parts`, `Chunks`, `ChunkedStore`, `RoundTrip`, `StoreExactly`,
`ChunkedRun`, `ChunkedProgress`; `Transport`, `TransportRuns`, `TransportRefusals`, `TransportPort`; `Watch`, `WatchRuns`, `WatchAnswers`,
`WatchHandle`; `Registry`, `RegistryRuns`, `RegistryKey`, `Card`; `Signer`, `SignerRuns`, `SignerRules`, `SignerStore`;
`NsisScan`; `Canonical`; `DepTree`; `Licence`, `LicenceText`; `Query`.
`dafny verify dfyconfig.toml` checks them all.

## Where the code differs from what is said of it

- The runtime's header and the comment on `watch` say that nothing runs after an unsubscribe
  (`sdk/k2-runtime.js:27-28`, `:814-815`). A widget that unsubscribes inside its own `state('live')` call still gets
  that value's `data` call. `WatchRuns.SilentAfterUnsubscribe` proves this is the only way.
- The comment on callback-form sources says that retries never pile up (`sdk/k2-runtime.js:915-917`). The filter reads
  the list that `stop` shortens, so the watch after a stopped one is skipped: it leaves the list and goes on.
  `RegistryRuns.RetriesPileUp` is such a run, `RegistryRuns.NextJoinReplaces` gives the exact condition, and
  `Card.OneLiveWatch` shows that the case the comment names is safe.
- An unsubscribed subscription can still be refused by the connect timeout, when another subscription's handler
  unsubscribes it from inside the timeout's loop (`sdk/k2-runtime.js:139-143`): `TransportRuns.RefusedAfterUnsubscribe`.
- The licence check promises an allowed OR choice for every AND term (`scripts/zen-lib/vendor.ts:225`). On tokens it is
  exact. On text an operator that touches a bracket and no space is not seen, and `(MIT OR X) AND(Y)` is accepted
  whatever `Y` is: `LicenceText.TightAndIsMissed`, with the exact condition in `LicenceText.RightExactlyWhenSpaced`.

## Model

| member | source | states |
|---|---|---|
| Utf16.CountUtf8 | sdk/k2-runtime.js:513-526 | the loop's count for any string, and for a well-formed one the number of bytes of its UTF-8 form (RFC 3629, section 3) |
| Utf16.Utf8Injective | sdk/k2-runtime.js:690 | two well-formed texts with the same UTF-8 bytes are the same text |
| Utf16.WellFormedExactly | sdk/k2-runtime.js:690 | the texts `encodeURIComponent` takes are exactly the UTF-16 encodings of Unicode scalar values |
| Utf16.EncodedIs | sdk/k2-runtime.js:690 | and their bytes are the UTF-8 encodings of the same values |
| Sha256.PackWords | sdk/k2-runtime.js:696-700 | the word array is the padded message of section 5.1.1 of FIPS 180-4, for every message of fewer than 2^29 bytes |
| Sha256.PutByte | sdk/k2-runtime.js:698-699 | or-ing a shifted byte into its word fills exactly that byte's place |
| Sha256.PaddedWords | sdk/k2-runtime.js:698-700 | every word of the padded message but the last is filled from the message and the one bit, and the last is the bit length |
| Sha256.NextWord | sdk/k2-runtime.js:704-705 | the next schedule entry is that of section 6.2.2, modulo 2^32 |
| Sha256.SigmasAgree | sdk/k2-runtime.js:705-708 | the shift-or-xor expressions on signed numbers are the sigma functions of section 4.1.2 |
| Sha256.ScheduleAgrees | sdk/k2-runtime.js:705 | the late truncation of a four-term sum gives the schedule's word |
| Sha256.MixAgrees | sdk/k2-runtime.js:707-710 | the untruncated sums stay exact in a double, and truncating late gives the eight variables of one round |
| Sha256.Pass | sdk/k2-runtime.js:706-711 | prepending, adding at index 4 and cutting to eight is one round of section 6.2.2 |
| Sha256.Compress | sdk/k2-runtime.js:702-712 | 64 passes are the 64 rounds over the block |
| Sha256.AddInto | sdk/k2-runtime.js:713 | the sums truncated to 32 bits are the intermediate hash value |
| Sha256.HashBlocks | sdk/k2-runtime.js:701-714 | the loop ends with the hash value of all blocks |
| Sha256.HexWordPads | sdk/k2-runtime.js:715 | padding with zeros and keeping eight digits writes the whole word |
| Sha256.Sha256Hex | sdk/k2-runtime.js:689-716 | the result is SHA-256 (FIPS 180-4) of the text's UTF-8 form, and no result for text that is not well formed |
| RoundConstants.Constants | sdk/k2-runtime.js:692-695 | the loop finds the first 64 primes and from their cube roots the constants of section 4.2.2, whatever doubles `Math.pow` gives within 2^-40 of the roots |
| RoundConstants.TableIsPrimes | sdk/k2-runtime.js:692-693 | the 64 primes are exactly those below 312 |
| RoundConstants.TableIsRoots | sdk/k2-runtime.js:694 | each constant is the first 32 bits of the fractional part of its cube root |
| JsonText.Reads | sdk/k2-runtime.js:528-532 | the text of any value, in front of anything that may follow one, is read (RFC 8259) as exactly that value and ends there |
| JsonText.EscapeForm | sdk/k2-runtime.js:530-532 | a character is written as itself unless it is a quote, a backslash, a control character or an unpaired surrogate; the short escape where there is one, lower-case hex otherwise |
| JsonText.StringReads | sdk/k2-runtime.js:530-532 | a quoted text is read back unit for unit, whatever it holds |
| JsonText.BodyHasNoControl | sdk/k2-runtime.js:530-532 | no unit below 0x20 stands in a quoted text |
| Parts.Pack | sdk/k2-runtime.js:536-553 | the parts keep every operation in order, obey both limits but for a single too-big operation, and no other such split has fewer parts |
| Parts.GreedyStaysAhead | sdk/k2-runtime.js:541-550 | after k parts the greedy split has taken at least as many operations as any other split that fits |
| Parts.GreedyIsMinimal | sdk/k2-runtime.js:541-552 | a split in which each part could not take the next part's first operation is minimal |
| Chunks.SplitChunks | sdk/k2-runtime.js:612-628 | the chunks join to the text, none is empty unless the text is; for well-formed text no surrogate pair is split, each chunk's JSON fits 49,152 bytes and all but the last are within six bytes of it |
| Chunks.PieceIsBody | sdk/k2-runtime.js:617-619 | what the loop adds for a character is its size inside a JSON string |
| Chunks.ChunkCount | sdk/k2-runtime.js:612-628 | a text of at most 1 MiB makes at most 129 chunks |
| ChunkedStore.PartKeysDistinct | sdk/k2-runtime.js:599-601 | part keys differ from the header's key and from one another |
| StoreExactly.PartKeyIs | sdk/k2-runtime.js:599-601 | a part key is the key, `/~` and the number without leading zeros |
| ChunkedStore.Prepare | sdk/k2-runtime.js:607-641 | which texts are refused as too large or ill formed, and otherwise the exact operations: the parts in order, then a header with their count, the byte length and the digest |
| ChunkedStore.AddDeletes | sdk/k2-runtime.js:642-647 | the operations grow by a delete for each listed key whose suffix is not below the number of chunks, in order |
| ChunkedStore.Assemble | sdk/k2-runtime.js:659-677 | what a read answers for any header and any entries: null, a mismatch, a throw on ill-formed text, or the joined text |
| RoundTrip.OwnKeysBelow | sdk/k2-runtime.js:645-646 | no delete names the header or a part just written, whatever the listing holds |
| RoundTrip.CommitHolds | sdk/k2-runtime.js:636-647 | from any store, committing the operations leaves the header and every part in place |
| RoundTrip.HeldIsRead | sdk/k2-runtime.js:657-679 | a store that holds a header and its parts, and anything else, is read back as the text |
| RoundTrip.PutThenGet | sdk/k2-runtime.js:599-679 | writing a well-formed text over any store contents and any page of old parts, then reading, gives the text back |
| StoreExactly.PutLeaves | sdk/k2-runtime.js:642-647 | after the commit, part number by part number: the new parts are there, a listed part past the new end is gone, an unlisted one is as it was; no other unlisted key changes |
| StoreExactly.PartsAreExactly | sdk/k2-runtime.js:642-647 | when the listing shows the old parts, the part keys left are exactly those of the new chunks |
| StoreExactly.NumberedKeys | sdk/k2-runtime.js:645-646 | a listed key with any other digits as its suffix is deleted exactly when their number is past the new end; one without a suffix counts as 0 |
| StoreExactly.PatchIs | crates/k2-core/src/garden_data/patch.rs:47-64 | field by field, what a patch in a commit leaves (RFC 7396, section 2): fields it does not name stay, null removes, objects merge the same way |
| StoreExactly.GetIsExact | sdk/k2-runtime.js:657-679 | a read answers null exactly when nothing is under the key, and a text exactly when the store holds a header with its count, length and digest and that many parts that join to it |
| RoundTrip.PartFits | sdk/k2-runtime.js:505-506 | a chunk's put, written as JSON, is within 61,440 bytes |
| RoundTrip.EveryPartFits | sdk/k2-runtime.js:536-553 | every part that `putChunked` sends has at most 64 operations and at most 61,440 bytes |
| ChunkedRun.StepKeepsInv | sdk/k2-runtime.js:556-679 | every step of any number of interleaved writes and reads, failures included, keeps: the host has staged exactly the acknowledged parts, transactions are not shared, every stored header is a committed write's |
| ChunkedRun.StoreChangesOnlyAtCommit | sdk/k2-runtime.js:648-652 | no step but a commit changes the store; a commit comes after every part was acknowledged, applies all the operations at once, and its text is read back right after |
| ChunkedRun.HeadWasRead | sdk/k2-runtime.js:659-663 | the header a reader holds is what the store held under its key at one step of the run |
| ChunkedRun.ReadsAreCommittedTexts | sdk/k2-runtime.js:657-679 | in every run, a text that a read returns is the text of the write whose header it read, and the host had committed that write before the header was read; or two texts collide under SHA-256 |
| ChunkedRun.QuietRead | sdk/k2-runtime.js:659-677 | a read with no commit under it, its parts answered in any order, returns the whole text, fails at the host or still waits |
| ChunkedProgress.WriteAlone | sdk/k2-runtime.js:607-655 | from every reachable state a write whose calls all succeed commits its text and is done; nothing of it stays at the host and nobody else is touched |
| ChunkedProgress.ReadAlone | sdk/k2-runtime.js:657-679 | from every state a read whose calls all succeed, its parts answered in any order, answers what the store then holds |
| ChunkedProgress.WrittenIsRead | sdk/k2-runtime.js:607-679 | the whole protocol: a write from any reachable state and then a read, host calls and all, answers the text |
| ChunkedProgress.StopsForGood | sdk/k2-runtime.js:648-652 | in every run a write takes no step after a failed call or its commit: it commits once at most, and never after a failure |
| ChunkedProgress.GoneNeverCommits | sdk/k2-runtime.js:556-596 | in every run a transaction dropped, committed or refused by the host is never committed after that |
| ChunkedProgress.AsksForItsParts | sdk/k2-runtime.js:663-664 | in every run a read asks for the parts its header counts and no other |
| ChunkedProgress.EveryCallMayFail | sdk/k2-runtime.js:649-655 | every call that a write or a read waits for may fail, and then it has failed |
| ChunkedProgress.LostAdd | sdk/k2-runtime.js:573-582 | a failed add added its part at the host, or nothing |
| TransportPort.Frame.Post | sdk/k2-runtime.js:96-100 | posts on the port, or queues when a queue with room exists, or drops |
| TransportPort.Frame.Call | sdk/k2-runtime.js:169-177 | the new state and the id, or a refusal without an id |
| TransportPort.Frame.Subscribe | sdk/k2-runtime.js:178-192 | the same for a subscription and its unsubscribe flag |
| TransportPort.Frame.Unsubscribe | sdk/k2-runtime.js:186-191 | acts once; deletes the entry and sends the message even when the subscription has ended |
| TransportPort.Frame.OnHello | sdk/k2-runtime.js:351-373 | connects once: theme subscription first, then the queue in order |
| TransportPort.Frame.OnTimeout | sdk/k2-runtime.js:131-143 | drops the queue, rejects every pending call in order and lists every subscription for refusal |
| TransportPort.Frame.RefuseWaiting | sdk/k2-runtime.js:141-143 | one turn of the timeout's last loop, between which handlers may act |
| TransportPort.Frame.OnReply | sdk/k2-runtime.js:226-232 | settles the pending call of that id, or nothing |
| TransportPort.Frame.OnValue | sdk/k2-runtime.js:214-218 | delivers to a subscription still in the map, or nothing |
| TransportPort.Frame.OnSubError | sdk/k2-runtime.js:219-225 | ends and refuses the subscription, telling K2 when it has no handler |
| TransportRuns.StepKeepsInv | sdk/k2-runtime.js:96-232 | every event keeps the agreement between the maps, the flags and what was done to each id |
| TransportRuns.EffectsAreLawful | sdk/k2-runtime.js:168-232 | in every run no id is given out twice, a call settles at most once, values reach only a subscription neither refused nor unsubscribed, and each of those happens at most once |
| TransportRuns.EntriesAreTheOpenOnes | sdk/k2-runtime.js:131-144 | in every reachable state `pending` is exactly the unsettled calls and `subs` exactly the open subscriptions, the two share no id, and both are empty without a port or a queue |
| TransportRuns.AnswersArrive | sdk/k2-runtime.js:199-232 | in every reachable state a reply settles its call as it says, a value or a refusal reaches its open subscription, and the timeout settles every call and lists every subscription |
| TransportRefusals.RequestsAreTaken | sdk/k2-runtime.js:168-192 | in every run a call or a subscription of plain data takes a new id while there is a port or a queue and is refused otherwise; the first unsubscribe of a subscription acts and no other does |
| TransportRefusals.EntryIsAsOpened | sdk/k2-runtime.js:178-184 | in every run an entry has an onError exactly when the event that gave out its id brought one |
| TransportRefusals.RefusalIsHeard | sdk/k2-runtime.js:155-162 | in every run a refusal sends K2 its note exactly when the event that gave out the id brought no onError |
| TransportRuns.BeforeHello | sdk/k2-runtime.js:96-100 | before the hello the wire is empty and the queue holds the first 1000 messages sent, or none after the timeout |
| TransportRuns.WireLaw | sdk/k2-runtime.js:351-373 | for every run with a hello: the wire is the theme subscription, the first 1000 earlier messages (none after a timeout), then every later message, in order |
| TransportRuns.NothingLost | sdk/k2-runtime.js:96-100 | the wire is the theme subscription followed by every message ever sent, in order, exactly when none was sent before the hello or the hello beat the timeout and there were at most 1000 |
| TransportRuns.RefusedAfterUnsubscribe | sdk/k2-runtime.js:139-143 | an unsubscribed subscription is refused later exactly when the timeout had already listed it |
| TransportRuns.RefusalFollowsUnsubscribe | sdk/k2-runtime.js:139-143 | a run in which that happens |
| WatchHandle.Handle.OnData | sdk/k2-runtime.js:855-871 | the new state after a value, good or of a bad shape |
| WatchHandle.Handle.OnRefusal | sdk/k2-runtime.js:873-894 | the new state after a refusal: fault before or after the state call by form, the timer, or the end |
| WatchHandle.Handle.Start | sdk/k2-runtime.js:895-903 | the new state after the first or a retried subscribe, also when it throws |
| WatchHandle.Handle.Unsubscribe | sdk/k2-runtime.js:905-912 | stops the timer and closes the subscription, once |
| WatchHandle.Handle.Tell | sdk/k2-runtime.js:830-840 | the state call, with the unsubscribe it may make |
| WatchHandle.Handle.Fault | sdk/k2-runtime.js:842-853 | the error call or the report, with the unsubscribe it may make |
| WatchRuns.DelayIsWait | sdk/k2-runtime.js:886 | the delay capped at the fifth doubling is min(30000, 1000 * 2^(n-1)) for every n |
| WatchRuns.StepKeepsInv | sdk/k2-runtime.js:820-913 | every event, whatever handlers unsubscribe in it, keeps the watch's invariant |
| WatchRuns.WatchIsLawful | sdk/k2-runtime.js:820-913 | in every run: never open and scheduled at once, one of them while live; the n-th refusal since the last good value waits min(30000, 1000 * 2^(n-1)); states told never repeat in a row nor follow `ended`; without an error handler K2 hears of a retried refusal only when it is the first of its row |
| WatchRuns.ValueIsAnswered | sdk/k2-runtime.js:855-871 | a live watch hands on every value of its shape and resets its row; any other value reaches the error handler, or K2 when the row is not past its first refusal |
| WatchRuns.RefusalIsAnswered | sdk/k2-runtime.js:873-894 | a live watch answers every refusal: the error handler hears of it, or K2 of the first and of the last; then the retry is set for the row's wait, or the watch ends |
| WatchRuns.HandlerObjectGivesUp | sdk/k2-runtime.js:873-894 | in every run of a handler object that never unsubscribes, the watch lives on, rate limits or not, until the first refusal that is not retryable, and ends with that |
| WatchRuns.OldFormGivesUp | sdk/k2-runtime.js:879 | in every such run of the old form, the watch ends with the first refusal that is not retryable or is for the rate, and with nothing else |
| WatchAnswers.EventIsAnswered | sdk/k2-runtime.js:820-912 | in order and in full, what a live watch does on each event; when the widget unsubscribes in a handler, what was to come is cut there, the subscription closed, a set timer cleared, and no state or error handler called any more |
| WatchRuns.NothingAfterEnded | sdk/k2-runtime.js:891-893 | after `ended` no event does anything |
| WatchRuns.SilentAfterUnsubscribe | sdk/k2-runtime.js:864-867 | no handler runs after the unsubscribe exactly when the widget never unsubscribes inside its `live` state call |
| WatchRuns.DataFollowsUnsubscribe | sdk/k2-runtime.js:864-867 | the shortest run in which one does |
| RegistryKey.Key.Filter | sdk/k2-runtime.js:930-934 | the filter over a list that its own callback shortens, as one function of the list |
| RegistryKey.Key.Join | sdk/k2-runtime.js:925-954 | the watches and the list after one more subscription |
| RegistryKey.Key.Stop | sdk/k2-runtime.js:945-951 | the watches and the list after a call of a watch's stop |
| Registry.SkippedIsLost | sdk/k2-runtime.js:930-948 | the watch after the first retrying one is off the list afterwards and unchanged |
| Registry.ReplacesAllExactly | sdk/k2-runtime.js:930-954 | over a list without repeats in which a retrying watch is live: a new subscription stops every retrying watch and keeps every other exactly when no watch of the list but the last is retrying |
| RegistryRuns.RefusedIsTheWatchs | sdk/k2-runtime.js:873-894 | with an onError that does nothing, a refusal here is the watch's own refusal |
| RegistryRuns.HappeningIsTheWatchs | sdk/k2-runtime.js:935-942 | a value, a refusal or a timer of one watch is exactly its own event, and touches no other |
| RegistryRuns.RunSound | sdk/k2-runtime.js:919-954 | every run of any number of subscriptions, values, refusals, timers and stops, from inside onError too, keeps a list without repeats in which a retrying watch is live |
| RegistryRuns.StopStops | sdk/k2-runtime.js:943-951 | a watch's stop ends it, listed or not, takes it off the list, and leaves every other watch and the list's order as they were |
| RegistryRuns.StoppedForever | sdk/k2-runtime.js:905-912 | a watch whose stop was called is never live again, whatever happens after |
| RegistryRuns.NextJoinReplaces | sdk/k2-runtime.js:915-954 | after every run the next subscription replaces exactly what it should, exactly when no watch of the list but the last is retrying |
| RegistryRuns.RetriesPileUp | sdk/k2-runtime.js:930-948 | a run in which it does not: of two refused watches the second goes on retrying, on no list, however many subscriptions follow |
| Card.NextKeeps | sdk/k2-runtime.js:879-893 | everything that can happen to a card that subscribes again in its own onError, stops of any watch at any time included, keeps its newest watch the only live and the only listed retrying one |
| Card.OneLiveWatch | sdk/k2-runtime.js:915-954 | in every run of such a card at most one watch is live, it is on the list, and the next subscription replaces every retrying watch and keeps every other |
| Card.ResubscribingLeavesTheNew | sdk/k2-runtime.js:879-893 | a refusal whose onError subscribes again leaves exactly one live watch: the new one |
| SignerStore.Store.CheckNewSession | scripts/k2sign/k2sign.py:1009-1034 | the first rule a new approval breaks, or none |
| SignerStore.Store.Ask | scripts/k2sign/k2sign.py:1037-1060 | the files after `challenge` and its answer |
| SignerStore.Store.OpenSession | scripts/k2sign/k2sign.py:1069-1086 | the session, the last version and the log after an approval |
| SignerStore.Store.Approve | scripts/k2sign/k2sign.py:1089-1124 | the files after `approve` and its answer; the challenge stays used when the rules then refuse it |
| SignerStore.Store.AdminApprove | scripts/k2sign/k2sign.py:1262-1275 | the files after an admin's approval |
| SignerStore.Store.Sign | scripts/k2sign/k2sign.py:1158-1218 | the files after `sign` and its answer, with every refusal in its order |
| SignerStore.Store.Preflight | scripts/k2sign/k2sign.py:951-974 | the log after the two self-test signatures |
| SignerRuns.RunKeepsInv | scripts/k2sign/k2sign.py:1009-1275 | every run of verbs from empty files keeps the signer's invariant |
| SignerRuns.OneHashPerAsset | scripts/k2sign/k2sign.py:1188-1218 | all signatures ever made for one version and asset are over one hash, across slots, repeats, re-approvals and expiries |
| SignerRuns.CountIsBounded | scripts/k2sign/k2sign.py:1069-1079 | a session's count is the number of its distinct signatures and at most twice its assets, its limit twice plus four |
| SignerRuns.NeverExhausted | scripts/k2sign/k2sign.py:1198-1199 | the refusal for having reached the session's signatures never comes |
| SignerRuns.SignaturesAreApproved | scripts/k2sign/k2sign.py:1170-1183 | with approval on, the latest approval of the version before an asset signature lists the asset, had not expired, and has `windows` set exactly when it lists a Windows asset |
| SignerRuns.SessionServes | scripts/k2sign/k2sign.py:1172-1183 | in every reachable state the session check passes exactly when the session exists, has not expired and lists the asset: its Windows rule never decides |
| SignerRuns.SignsExactlyWhen | scripts/k2sign/k2sign.py:1158-1218 | in every reachable state a signature is given exactly when the asset is signable, the session is open and lists it, the bytes are the first ones seen, the evidence is there and the tool signs; the refusals for the session's limit and for a Windows setup never decide; a refusal changes no session and no first hash |
| SignerRules.NewerIsLexicographic | scripts/k2sign/k2sign.py:202-203 | versions compare at the first part that differs |
| SignerRules.RulesAre | scripts/k2sign/k2sign.py:1009-1034 | in every reachable state the rules pass exactly when all assets may be listed, the Windows flag has its asset, and the version is newer than every session or is re-approved on its own base |
| SignerRules.RulesRefuseFor | scripts/k2sign/k2sign.py:1009-1034 | and each reason is given exactly when it is the first that holds |
| SignerRules.AsksExactlyWhen | scripts/k2sign/k2sign.py:1037-1060 | when a challenge is given, and that it keeps its own request, limit and instant |
| SignerRules.ApprovesExactlyWhen | scripts/k2sign/k2sign.py:1089-1124 | in every reachable state `approve` opens a session exactly when approval is on, the challenge is known, unused and in its window, the signature has 1 to 1024 bytes and verifies, and the rules still pass; what each refusal leaves behind |
| SignerRules.AdminApprovesExactlyWhen | scripts/k2sign/k2sign.py:1262-1275 | the same for an admin, without a challenge |
| SignerRules.ApproveRefusesFor | scripts/k2sign/k2sign.py:1095-1121 | which refusal `approve` gives, in its order |
| SignerRules.SignRefusesFor | scripts/k2sign/k2sign.py:1158-1218 | which refusal `sign` gives in every reachable state, in its order |
| SignerRules.ApprovalsAreSigned | scripts/k2sign/k2sign.py:1114-1122 | in every run each approval in the log was written by an `approve` whose signature verified over that challenge, or by an admin |
| SignerRules.SignLogs | scripts/k2sign/k2sign.py:1188-1218 | exactly what each answer of `sign` writes to the log |
| SignerRules.SignRecords | scripts/k2sign/k2sign.py:1205-1218 | a signature records its first hash, and counts in its session once |
| SignerRules.PreflightLogs | scripts/k2sign/k2sign.py:951-974 | preflight logs a self-test signature for each slot up to the first that does not sign, and changes nothing else |
| SignerRuns.ApprovalOpensWhatWasAsked | scripts/k2sign/k2sign.py:1037-1124 | a challenge given and then approved in time opens exactly the session asked for, and can never be used again |
| SignerRuns.LastIsGreatest | scripts/k2sign/k2sign.py:1081-1083 | the last version is the greatest with a session |
| SignerRuns.FlagMarksTheFirst | scripts/k2sign/k2sign.py:1022-1031 | in every run an approval goes without `reapprove` exactly when the log before it holds no approval of its version |
| SignerRuns.FirstTimesIncrease | scripts/k2sign/k2sign.py:1032-1034 | in every run the first approvals of versions come in strictly increasing version order |
| SignerRuns.BaseNeverChanges | scripts/k2sign/k2sign.py:1027-1029 | all approvals of a version name one base commit |
| SignerRuns.ChallengeOpensOnce | scripts/k2sign/k2sign.py:1100-1121 | each challenge opens at most one session, the one it asked for, inside its time window |
| NsisScan.ScanBuffer | scripts/k2sign/k2sign.py:890-896 | found exactly when the buffer holds the signature at a fitting offset |
| NsisScan.SeenInBuffer | scripts/k2sign/k2sign.py:888-897 | a match in the file read so far is in the part before, or in the carried tail with the new block |
| NsisScan.Scan | scripts/k2sign/k2sign.py:882-899 | for every file and every way the reads are split: found exactly when the whole file holds the signature at some i with i - 4 a multiple of 512 |
| NsisScan.SignatureIs | scripts/k2sign/k2sign.py:861 | the signature is the little-endian 0xdeadbeef and `NullsoftInst` |
| Canonical.DecimalReadsBack | scripts/ci/compute_release.py:61 | an integer's digits give the integer |
| Canonical.QuoteReadsBack | scripts/ci/compute_release.py:58-61 | a quoted string at the front of a text can be read back one way (escapes of RFC 8259, section 7) |
| Canonical.EscapeIs | scripts/ci/compute_release.py:58-61 | an escape means its character, and is used exactly for a quote, a backslash and control characters: short where there is a short one, lower-case hex otherwise |
| Canonical.LessIsPrecedes | scripts/ci/compute_release.py:58 | the order of keys is that of Python's strings: equal up to a place where one ends or has the smaller code point |
| Canonical.SortKeeps | scripts/ci/compute_release.py:58 | sorting puts distinct keys in strictly increasing order and keeps the mapping |
| Canonical.DictText | scripts/ci/compute_release.py:57-58 | a dict's text lists exactly its entries, each key before the next |
| Canonical.Reads | scripts/ci/compute_release.py:55-61 | the canonical text of any value is read (RFC 8259, no white space) as exactly what the value means |
| Canonical.ReadsBack | scripts/ci/compute_release.py:55-61 | a value's text at the front of a text gives the value's meaning and where it ends |
| Canonical.SameText | scripts/ci/compute_release.py:58 | equal values have one text, whatever their dicts' insertion order |
| Canonical.CanonicalIsOneToOne | scripts/ci/compute_release.py:55-61 | two values have the same canonical text exactly when they are equal |
| Canonical.ArgvTextsDiffer | scripts/ci/compute_release.py:64-65 | the texts that `argv_sha256` hashes are equal exactly when the argument lists are |
| DepTree.Collect | scripts/zen-lib/vendor.ts:212-220 | one call adds only names it reaches; unless it stops at a missing package, all it adds and the package itself have their dependencies in the set; it ends on cycles too |
| DepTree.Tree | scripts/zen-lib/vendor.ts:212-220 | on a fresh set it stops exactly when the package or something it reaches is not installed, and otherwise holds exactly what is reached by one or more edges that are not skipped |
| DepTree.SkippedAre | scripts/zen-lib/vendor.ts:215 | the names that are skipped |
| Licence.AcceptedIsMet | scripts/zen-lib/vendor.ts:223-231 | tokens accepted without their brackets: every expression tree over them (SPDX Specification 2.3, Annex D) can be met with allowed licences |
| Licence.AcceptsMeansAllTreesMet | scripts/zen-lib/vendor.ts:223-231 | and the other way: refused tokens have a tree that cannot be met |
| LicenceText.SplitIsCut | scripts/zen-lib/vendor.ts:229-230 | the split at an operator finds exactly the operators with a gap on both sides |
| LicenceText.SpacesAre | scripts/zen-lib/vendor.ts:229-230 | what the pattern for white space and `trim` take, one by one (ECMAScript, sections 12.2 and 12.3) |
| LicenceText.Verdict | scripts/zen-lib/vendor.ts:226-231 | the verdict on an expression as written, whatever spaces and brackets stand between names and operators |
| LicenceText.SpacedIsExact | scripts/zen-lib/vendor.ts:226-231 | with a space on both sides of each operator the text is accepted exactly when all trees over its tokens can be met |
| LicenceText.RightExactlyWhenSpaced | scripts/zen-lib/vendor.ts:226-231 | the verdict is right for every choice of names exactly when each operator has a space on both sides |
| LicenceText.TightAndIsMissed | scripts/zen-lib/vendor.ts:228-230 | `(a OR b) AND(c)` with `a` allowed is accepted though `c` is not |
| Query.PctEncode | src-tauri/src/daemon_client.rs:269-280 | the loop writes the percent-encoding of RFC 3986, sections 2.1 and 2.3 |
| Query.EncodedByteIs | src-tauri/src/daemon_client.rs:269-280 | which 66 bytes stay as they are, and the two upper-case digits of any other |
| Query.CliTarget | src-tauri/src/daemon_client.rs:102-109 | the loop writes the token pair and each encoded pair in order |
| Query.PctDecode | src-tauri/src/daemon_client.rs:401-416 | the decoder's loop, where it stops the program, and that it sees an escape only with two characters after the sign |
| Query.DecodesExactly | src-tauri/src/daemon_client.rs:401-416 | it gives a result exactly when the text is cut into plain bytes and escapes, a percent sign being plain only with fewer than two characters after it, and then their values |
| Query.HexPairIs | src-tauri/src/daemon_client.rs:407-408 | an escape is two hex digits of either case, or a plus sign and one |
| Query.NonEmptyAre | src-tauri/src/daemon_client.rs:366-368 | the filter drops exactly the empty pieces |
| Query.EncodedDecodes | src-tauri/src/daemon_client.rs:269-280 | decoding what was encoded gives the bytes back |
| Query.DecodeKeeps | src-tauri/src/daemon_client.rs:401-416 | decoding changes nothing exactly when no percent sign has two characters after it |
| Query.PairsComeBack | src-tauri/src/daemon_client.rs:362-373 | for a token without an ampersand the split and decoded query is the decoded token and then exactly the caller's pairs |
| Query.ComesBackExactly | src-tauri/src/daemon_client.rs:362-373 | the token pair followed by exactly the caller's pairs comes back exactly when the token has no ampersand and no percent sign with two characters after it |

## Left out

- `RoundConstants.Constants`: takes each double that `Math.pow` gives to be within 2^-40 of the cube root, about a thousand times the distance of doubles there; how it computes them is not modelled.
- Messages of 2^29 bytes or more in SHA-256: the code's bit length would no longer fit one word; the runtime's limit is 1 MiB.
- `ChunkedStore.Assemble`: JSON numbers are integers, as in the values `putChunked` writes, so a header whose `chunks` is a fraction is outside the model.
- What `Number` makes of a listed key whose suffix is neither empty nor all digits is left open: the theorems hold for every answer.
- Revision conflicts, quotas and host errors are one failure each; the host's store is a map and its transactions apply whole or not at all.
- Other writers of the store (plain puts): a run starts from a store whose chunk headers were all committed by `putChunked`; `RoundTrip.PutThenGet` itself starts from any store.
- `k2.store.tx` used by a widget directly, blobs and downloads, and the paging of `store.list`: any page of old parts is allowed.
- `ChunkedRun.ReadsAreCommittedTexts`: admits two texts with one SHA-256 digest as the only exception, since no such pair can be ruled out.
- The transport's verbs, arguments and values are opaque, the check for plain data is an answer given with the call, ids are unbounded, and pings, visibility, viewport, sizes, chords and drops are not modelled.
- The timeout's loop over refused subscriptions is one event a turn, so that handlers can act in between; no host message comes before it ends.
- `WatchHandle.Handle.OnData`: whether a handler unsubscribes is an argument of the event, and what else a handler does is not modelled; shape guards are an answer, good or bad.
- `RegistryKey.Key.Filter`: the watches in the list are values, not objects shared with their own timers.
- The registry is that of one key; the map from verb and arguments to lists is not modelled. Its watches have an onError; one without differs only in what K2 is told.
- The signer's signature, evidence, pin and policy checks are answers given with the verb, clocks and random tokens are arguments, and the policy is fixed for a run; versions are triples of naturals.
- `SignerRuns.ChallengeOpensOnce`: assumes that a new challenge's random token is not that of an earlier challenge.
- Crashes between two file writes of one signer verb: the lock makes a verb one step. The order of an approval's assets (the code sorts them) does not matter to any property.
- The PE checks before the NSIS search, and everything in the signer that only prints.
- Canonical JSON for floats, which the release data has not, and the encoding of its text to bytes.
- `check_job` in `compute_release.py`: a list of single checks.
- The reading of package.json files and the directory lookup behind `depTree`: the installed packages and their dependencies are a map.
- An SPDX `WITH` exception or a `+` is part of no name the licence check allows, so such expressions are refused; names in the text model hold no space.
- The HTTP request around the query, and what a URL library does to a path or a token with spaces, `#` or non-ASCII characters; the check that decoded bytes are UTF-8.
- DOM, theme, keyboard, mouse, drop and hit-region code, windows, menus, trays, watchers and event sockets: input and output plumbing or single-branch decisions.
