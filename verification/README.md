# Verified model of the order-messaging backend

The backend keeps the conversations between the parties of an order in PostgreSQL. Its guarantees
rest on a few small protocols over rows, locks and transactions, and on some pieces of in-memory
code. This project models them in Dafny and proves what they keep over every input and every run.

| module | part of the backend |
|---|---|
| `MessageStore`, `MessageLog`, `MessageGuarantees` | the send, markRead and enable transactions statement by statement, interleaved, with row locks, aborts and crashes; the atomic transactions that they refine; what holds in every run |
| `TableEffects`, `LoneTransactions` | what each transaction does to the tables, column by column; what one decides when it meets no other |
| `MessageReading`, `MessageBodies`, `MessageOrigins` | listing, the polling reader, what a stored body reads as, and which call and which committed tables it comes from |
| `MessagesService` | the messages service as an object, one call at a time |
| `OutboxProtocol`, `OutboxWorker`, `Backoff` | many outbox workers with `SKIP LOCKED`, crashes and backoff; one worker's loop |
| `KeyPackages`, `MlsDelivery`, `E2eeService` | key packages, MLS groups and their messages; the service as an object |
| `EnvelopeCrypto`, `CryptoSchedule`, `LocalKms`, `Base64`, `Strings` | envelope encryption, the data-key cache, overlapping calls on its buffers, and the wrapped-key format |
| `ContentScanner`, `Patterns`, `Luhn` | the moderation scanner |
| `RefreshTokens`, `RefreshRaces`, `RateLimiter` | refresh-token rotation, by whole calls and statement by statement; the fixed-window limiter |

How the source is rendered:

- A protocol is a total step function over its whole state: a step that cannot be taken (a lock is
  held, a row is missing) changes nothing, so a theorem about all action lists is a theorem about
  all interleavings. What a transaction has written stays private to it until its commit.
- Time, random bytes, uuids, AES-256-GCM, UTF-8, the regular-expression engine and the outcome of
  `handle` are parameters. The hypotheses on them are `LocalKms.Lawful` (opening undoes sealing; the
  lengths of AES-GCM; UTF-8 round trip) and `ContentScanner.Sound` (a match lies ahead, is not empty,
  and belongs to the pattern).
- The regular expressions are modelled as the sets of strings they describe. Word boundaries, greed
  and capture groups only narrow what the engine finds, so nothing is assumed about them.
- A string is a sequence of Unicode scalar values; the length limit of `send` counts UTF-16 units.

Where the code decides less than its documentation suggests, or otherwise than one might expect,
the model follows the code:

- An empty idempotency key skips the lookup but is stored, so a second send with it fails on the
  unique index instead of being replayed (`KnownKeyOutcome`).
- The expiry of a key package is compared with the start of the claiming transaction, so a claim
  that waits for its row can lock and hand out a package that has expired meanwhile. It cannot
  exactly when the package has more life left at the start than claims are allowed to take
  (`InTimeExactly`).
- `rotate` is not one transaction. Two overlapping rotations of one token can both succeed, and a
  rotation that had read its token survives the revocation of all tokens after a reuse
  (`RotatesAgainExactly`, `ComesBackExactly`). With whole calls, or with one rotation of a token at a
  time, each login has a single chain (`OneLiveTokenPerLogin`, `AloneKeepsChains`).
- U+0000 is refused by PostgreSQL in text, in `jsonb` and as a parameter, so such a send fails.
- The wrapped key fits its column exactly when the active key's id has at most 42 letters
  (`DekIdFitsColumn`); with a longer id every encrypted send fails.
- The limiter's count is exact exactly as long as an `incr` reaches Redis within 5001 ms of the clock
  reading that named its counter (`ExactUpToTheSlack`). A key is taken to be live at the very
  millisecond of its expiry and gone after it, as Redis does.

## Model

| member | source | states |
|---|---|---|
| `MessageLog.RunIsSerial` | backend/src/modules/messages/messages.service.ts:91-188 | From any sound state, every interleaving of sends, e2ee switches, markRead calls, edits, aborts and crashes leaves the tables equal to a serial run of the committed transactions in commit order, each of them legal where it runs; where a send's receivers and a markRead's messages come from is `CommittedSend` and `CommittedMark`. |
| `MessageLog.StepRefines` | backend/src/modules/messages/messages.service.ts:91-188 | One step changes the tables exactly as one legal atomic transaction, or not at all. |
| `MessageLog.StepKeepsInv` | backend/src/modules/messages/messages.service.ts:91-188 | Every step keeps the invariant: sound tables, distinct ids, each transaction's view of its locked row still the committed one, every reply backed by a stored row. |
| `MessageLog.StepTouchesOwn` | backend/src/modules/messages/messages.service.ts:92-97 | While a transaction holds a conversation row, no other transaction's commit sends to it, switches it or changes its status; likewise for the unique-index lock on its group. |
| `MessageLog.OthersKeepTx` | backend/src/modules/messages/messages.service.ts:92-124 | What a transaction relied on before another one's step, it can rely on after it: this is what holding the row lock to commit buys. |
| `MessageLog.FindKey` | backend/src/modules/messages/messages.service.ts:113-122 | The lookup finds a row exactly when some row of the conversation carries the sender and key, and what it finds is such a row. |
| `MessageLog.InitialOk` | backend/src/modules/messages/messages.service.ts:91-188 | The empty system satisfies the invariant. |
| `MessageStore.ApplyKeepsStoreOk` | backend/src/modules/messages/messages.service.ts:124-175 | Every legal atomic transaction keeps all table invariants: gap-free numbering, distinct ids, unique keys, flag iff group, one creation event per message, ordered receipts, one body form per row. |
| `MessageStore.ApplyEvents` | backend/src/modules/messages/messages.service.ts:158-173 | Creation events stay in one-to-one, order-preserving correspondence with the messages. |
| `MessageStore.ApplyReceipts` | backend/src/modules/messages/messages.service.ts:145-156 | Every transaction keeps each user's read receipts a prefix of the receipts held. |
| `MessageStore.EditKeepsIdentity` | backend/src/modules/privacy/privacy.service.ts:115-127 | Soft delete, hide and anonymise never add, drop, move, renumber or re-key a row. |
| `MessageStore.Recipients` | backend/src/modules/messages/messages.service.ts:170 | Exactly the members of the conversation other than the sender, those who left included. |
| `MessageStore.MarkIsExact` | backend/src/modules/messages/messages.service.ts:234-245 | A `markRead` makes read exactly the user's receipts for messages up to the sequence that its subquery saw, and leaves every other receipt as it was. |
| `MessageLog.MarksStay` | backend/src/modules/messages/messages.service.ts:234-245 | What the subquery saw does not depend on what commits after it. |
| `MessageLog.SendStepAdvances` | backend/src/modules/messages/messages.service.ts:91-175 | Each statement of `send` leaves its transaction where it was or moves it to the next stage with exactly what it read: the membership test, the key, the receivers in the committed tables. |
| `MessageOrigins.RunIsTraced` | backend/src/modules/messages/messages.service.ts:91-188 | In every run, every transaction under way acts for a call that was made, and what it has checked and read it found in the committed tables, under a lock held ever since. |
| `MessageOrigins.CommittedSend` | backend/src/modules/messages/messages.service.ts:106-175 | Every send that commits was asked for, found its sender to be an active member, has exactly the receipts and recipients that the conversation's members gave, each at a step since which it held the row lock, and its commit delivers the message, column by column. |
| `MessageOrigins.CommittedMark` | backend/src/modules/messages/messages.service.ts:222-255 | Every `markRead` that commits belongs to a call, makes read exactly the user's receipts for the messages up to the sequence that were committed when its subquery ran, and sets its position and event. |
| `MessageOrigins.CommittedEdit` | backend/src/modules/privacy/privacy.service.ts:115-127 | A committed soft delete, hide or anonymise rewrites exactly the rows that it names, column by column, and changes no other table. |
| `MessageOrigins.HiddenAndDeletedShow` | backend/src/modules/messages/messages.service.ts:285-288 | A hidden row is shown as the moderation notice, a deleted one as nothing. |
| `MessageOrigins.ListedTextWasSent` | backend/src/modules/messages/messages.service.ts:56-303 | In every run, an undeleted message that is not hidden is shown with exactly the text of a call of the transaction that created it, to that conversation, by that sender, with that key, and is Flagged exactly if that call was; a hidden one with the mask. |
| `MessageOrigins.RunRowsSent` | backend/src/modules/messages/messages.service.ts:126-173 | In every run, each row and its creation event come from a call of the transaction that drew the row's id, with that conversation, sender, key and text, and with the status of that call unless it was hidden or deleted since. |
| `MessageGuarantees.LogIsGapFree` | backend/src/modules/messages/messages.service.ts:124-175 | In every reachable state the messages of a conversation carry exactly the sequences 1 to `last_sequence`, in commit order, each with exactly one creation event that names its id, sender and sequence. |
| `MessageGuarantees.RunGrows` | backend/src/modules/messages/messages.service.ts:126-143 | Over any run a committed row keeps its place, id, sender, key and sequence. |
| `LoneTransactions.LoneSendDecides` | backend/src/modules/messages/messages.service.ts:56-188 | A send that meets no one else ends, and decides exactly: it is accepted if and only if an active member writes to an open classic conversation with a known non-empty key or with values that the database stores; a refusal changes nothing; a known key answers with the stored row and changes nothing; anything else adds one row with its sender, key, body, status and next sequence, an unread receipt per active other member and one event with the text and all others, and nothing else. |
| `LoneTransactions.LoneEnableDecides` | backend/src/modules/e2ee/e2ee.service.ts:110-142 | `enableE2ee` alone sets flag and group on every conversation without the flag, and changes nothing otherwise. |
| `LoneTransactions.LoneMarkDecides` | backend/src/modules/messages/messages.service.ts:222-255 | `markRead` alone marks exactly the receipts up to the sequence, overwrites the read position and adds its event, unless the number does not fit `bigint`. |
| `TableEffects.SendDelivers` | backend/src/modules/messages/messages.service.ts:126-175 | Column by column: a committed send adds its row, its unread receipts and its event, and changes nothing else. |
| `TableEffects.EditRewrites` | backend/src/modules/messages/messages.service.ts:266-273 | Column by column: a soft delete marks the sender's row Deleted with its time and without a body; a hide only sets the status; an anonymise wipes every row of the user and keeps an earlier time of deletion; every other row is as it was. |
| `TableEffects.MarkReads` | backend/src/modules/messages/messages.service.ts:222-255 | Column by column: exactly the user's receipts for the seen messages up to the sequence become read; read position and event are as requested; the log is as it was. |
| `TableEffects.EnableSwitches` | backend/src/modules/e2ee/e2ee.service.ts:112-142 | Column by column: the flag and the group of one conversation, and nothing else. |
| `MessageGuarantees.RepliesAgree` | backend/src/modules/messages/messages.service.ts:113-122 | In every run, two successful sends with the same conversation, sender and key returned the same id and sequence. |
| `MessageGuarantees.KnownKeyChangesNothing` | backend/src/modules/messages/messages.service.ts:113-122 | Once a message carries the key, no step of a send with that key changes any table. |
| `MessageGuarantees.KnownKeyOutcome` | backend/src/modules/messages/messages.service.ts:113-143 | A key that a row of the conversation carries with this sender ends in a replay if it is not empty (or a failed query if it holds U+0000); an empty one skips the lookup and its insert fails on the unique index. |
| `MessageGuarantees.FlagFreezesLog` | backend/src/modules/messages/messages.service.ts:99-103 | Once the e2ee flag is committed it stays, and no classic message is ever committed to that conversation again, over any run. |
| `MessageGuarantees.FlagMeansGroup` | backend/src/modules/e2ee/e2ee.service.ts:112-142 | In every reachable state the flag is set exactly when the group exists, and no transaction about to commit a group finds one already there. |
| `MessageGuarantees.ReadReceiptsArePrefix` | backend/src/modules/messages/messages.service.ts:234-245 | In every reachable state, for every user, a read receipt implies that all earlier receipts of that user in the conversation are read, whatever the `uptoSequence` values. |
| `MessageGuarantees.ReadStaysRead` | backend/src/modules/messages/messages.service.ts:234-245 | Over any run no receipt disappears or goes from read to unread. |
| `MessageReading.AfterIsExact` | backend/src/modules/messages/messages.service.ts:209-211 | The rows after a sequence are exactly the undeleted rows with a larger one, in increasing order. |
| `MessageReading.BeforeIsExact` | backend/src/modules/messages/messages.service.ts:212-217 | The rows before a sequence are exactly the undeleted rows with a smaller one, in decreasing order. |
| `MessageReading.PageBeforeIsExact` | backend/src/modules/messages/messages.service.ts:203-218 | The page before a sequence is strictly decreasing, holds undeleted rows below it, leaves none of them out above its last one, and has min(limit or 50, 100, number of such rows) of them. |
| `MessageReading.LatestPageIsExact` | backend/src/modules/messages/messages.service.ts:203-218 | The same for the page without cursors, over the whole log. |
| `MessageReading.NewestComesFirst` | backend/src/modules/messages/messages.service.ts:215-218 | The page without cursors starts with the newest undeleted message. |
| `MessageReading.PageAfterCount` | backend/src/modules/messages/messages.service.ts:203-218 | The page after a sequence has min(limit or 50, 100, number of undeleted rows after it) rows. |
| `MessageReading.DeletedIsNotListed` | backend/src/modules/messages/messages.service.ts:207 | No listing returns a row with a time of deletion. |
| `MessageReading.PageIsExact` | backend/src/modules/messages/messages.service.ts:203-218 | A page holds listed rows after the cursor and leaves out none of them up to its own last sequence, or none at all when it is not full. |
| `MessageReading.PollFollows` | backend/src/modules/messages/messages.service.ts:197-220 | One poll keeps the reader complete: nothing repeated, nothing out of order, nothing undeleted missed up to its cursor. |
| `MessageReading.PollAdvances` | backend/src/modules/messages/messages.service.ts:203-218 | A poll moves the cursor forward by at least the length of its page. |
| `MessageReading.ShortPageCatchesUp` | backend/src/modules/messages/messages.service.ts:203-218 | After a page that is not full, every undeleted message has been received. |
| `MessageReading.ReaderMissesNothing` | backend/src/modules/messages/messages.service.ts:197-220 | For every mix of system steps and polls with any limits, the polling reader has received everything that is still undeleted up to its cursor, once and in order. |
| `MessageReading.PollsProgress` | backend/src/modules/messages/messages.service.ts:197-220 | With limits of at least 1, each poll moves the cursor on unless everything undeleted has been received. |
| `MessageReading.ReaderCatchesUp` | backend/src/modules/messages/messages.service.ts:197-220 | After any run, as many polls as the log has messages beyond the cursor, with nothing committed in between, leave the reader with every undeleted message, once and in order. |
| `MessageBodies.ListedTextIsSentText` | backend/src/modules/messages/messages.service.ts:283-303 | In every run, an undeleted message that is not hidden is shown with exactly the text of its creation event (the cleaned text of its send), a hidden one with the mask, with encryption on or off and after any additions to the key ring. |
| `MessageBodies.ColumnsReadable` | backend/src/modules/messages/messages.service.ts:71-89 | With encryption on, the body columns hold no clear text and one complete encrypted form; with it off, the text; either way they read back as the cleaned text. |
| `MessageBodies.StepReadable` | backend/src/modules/messages/messages.service.ts:71-89 | Every step keeps stored rows and sends under way readable as their own text. |
| `MessageBodies.RunReadable` | backend/src/modules/messages/messages.service.ts:71-89 | So does every run. |
| `MessageBodies.MoreKeys` | backend/src/modules/crypto/providers/local-kms.provider.ts:58-60 | Adding keys to the ring leaves every readable body readable with the same text. |
| `MessagesService.Service.SendTransaction` | backend/src/modules/messages/messages.service.ts:91-188 | The method decides as a send that meets no one else does: same acceptance, replay and delivery, column by column. |
| `MessagesService.Service.LookUpOrAppend` | backend/src/modules/messages/messages.service.ts:113-187 | The part past the checks. |
| `MessagesService.Service.Send` | backend/src/modules/messages/messages.service.ts:56-187 | An empty or over-long trimmed text is refused unchanged; otherwise the text is the scanned text, the transaction decides as above, and a new last row is Flagged exactly if at least two kinds were found and Sent otherwise, with the sender, key and body. |
| `MessagesService.Utf16Reads` | backend/src/modules/messages/messages.service.ts:61 | The length that is bounded counts letters outside the basic plane twice. |
| `MessagesService.Prepare` | backend/src/modules/messages/messages.service.ts:63-89 | The request holds the scanned text, its status is flagged exactly for two or more kinds, and its body columns are those of that text. |
| `MessagesService.WriteBody` | backend/src/modules/messages/messages.service.ts:71-89 | With encryption on, one complete encrypted form and no clear text; otherwise the clear text alone. |
| `MessagesService.Service.AppendMessage` | backend/src/modules/messages/messages.service.ts:124-175 | The writes deliver the message, column by column, and keep all table invariants. |
| `MessagesService.Service.SaveReceipts` | backend/src/modules/messages/messages.service.ts:148-156 | Every reader has an unread receipt for the message afterwards, and no other receipt appears or goes. |
| `MessagesService.Service.MarkReadUpTo` | backend/src/modules/messages/messages.service.ts:222-255 | Fails, unchanged, exactly for a number outside `bigint`; otherwise exactly the user's receipts up to the sequence become read, the read position is overwritten and the read event added. |
| `MessagesService.Service.FindMessage` | backend/src/modules/messages/messages.service.ts:261-262 | Finds the row with the id, or proves that there is none. |
| `MessagesService.Service.Delete` | backend/src/modules/messages/messages.service.ts:260-273 | Succeeds exactly for the sender of an existing message; then the row with that id is Deleted, with the time of deletion and no body, and every other row is as it was; otherwise nothing changes. |
| `LoneTransactions.InsertFailsMeans` | backend/src/database/migrations/1716900000000-InitialSchema.ts:87-88 | Under the lock the insert can fail only on a known key or a value that its column does not store: never on the sequence index. |
| `MessagesService.DeleteIsEdit` | backend/src/modules/messages/messages.service.ts:266-273 | Saving the one changed row is the same as the row-wise edit over all tables, because ids are distinct. |
| `OutboxProtocol.WorkersAreSafe` | backend/src/modules/outbox/outbox.worker.ts:90-132 | With any number of workers, any selection of due and unheld rows and a crash possible at any step, no row is ever held twice, and a committed `processed_at` means that `handle` completed for that event. |
| `OutboxProtocol.EventsAreNeverLost` | backend/src/modules/outbox/outbox.worker.ts:90-132 | Over any run an event's row stays, is unprocessed unless its handling completed, and never changes once processed. |
| `OutboxProtocol.CrashFreesRows` | backend/src/modules/outbox/outbox.worker.ts:91-101 | A crash gives every row of the batch back as it was: free, and due again. |
| `OutboxProtocol.StepKeepsInv` | backend/src/modules/outbox/outbox.worker.ts:90-132 | Every step keeps the protocol's invariant. |
| `OutboxProtocol.RunKeepsInv` | backend/src/modules/outbox/outbox.worker.ts:90-132 | So does every run. |
| `OutboxProtocol.AttemptsAreSpaced` | backend/src/modules/outbox/outbox.worker.ts:114-123 | In every run, a worker that attempts an event after n committed failures started at least 2^(n+1)-2 seconds after the first of them for n up to 11, and at least 4094+3600(n-11) beyond. |
| `OutboxProtocol.RetryTimeIsExact` | backend/src/modules/outbox/outbox.worker.ts:114-119 | In every run, an event with n committed failures is due again exactly min(3600, 2^n) seconds after the start of the transaction that committed the last one. |
| `OutboxProtocol.OutcomeMeans` | backend/src/modules/outbox/outbox.worker.ts:107-123 | A handled row becomes processed and is otherwise unchanged, or counts one more attempt and is put off by the capped power of two. |
| `OutboxProtocol.DueEventsCanBeHandled` | backend/src/modules/outbox/outbox.worker.ts:90-132 | Whatever happened before, an unprocessed event whose time has come and that nobody holds can be taken by any idle worker, handled and committed, with no other row changed. |
| `OutboxProtocol.SpacingAddsUp` | backend/src/modules/outbox/outbox.worker.ts:114-119 | Spacings between consecutive failures add up to the total delay. |
| `Backoff.TotalDelayClosedForm` | backend/src/modules/outbox/outbox.worker.ts:115 | The capped exponential delays sum to 2^(n+1)-2 up to the eleventh, and grow by an hour each after it. |
| `Backoff.DelayIsPositive` | backend/src/modules/outbox/outbox.worker.ts:115 | A failed event waits at least two seconds. |
| `OutboxWorker.DueIsExact` | backend/src/modules/outbox/outbox.worker.ts:92-98 | The due positions are exactly the rows without `processed_at` whose `next_attempt_at` has come, in order, without repetition. |
| `OutboxWorker.OutcomeIsNotDue` | backend/src/modules/outbox/outbox.worker.ts:107-123 | A row that was handled, well or badly, is not due again at the same instant. |
| `OutboxWorker.BatchLeavesRest` | backend/src/modules/outbox/outbox.worker.ts:90-131 | After a batch, what is still due is exactly what was due behind it. |
| `OutboxWorker.Worker.SelectDue` | backend/src/modules/outbox/outbox.worker.ts:92-101 | The query's answer is the first due rows, oldest first, up to the limit. |
| `OutboxWorker.Worker.HandleRows` | backend/src/modules/outbox/outbox.worker.ts:104-129 | Each row of the batch gets its outcome, and no other row changes. |
| `OutboxWorker.Worker.ProcessBatch` | backend/src/modules/outbox/outbox.worker.ts:90-132 | A batch attempts exactly the first rows without `processed_at` whose time has come, in order, under any pattern of failures; each becomes processed or is put off by min(3600, 2^attempts) seconds, no other row changes, and what is still due is the rest. |
| `OutboxWorker.Worker.Drain` | backend/src/modules/outbox/outbox.worker.ts:56-74 | With the clock still, repeated batches attempt each due event exactly once, each with its own outcome, need exactly ceil(due/20) non-empty passes, and leave every row processed or put off. |
| `KeyPackages.PackagesAreSingleUse` | backend/src/modules/e2ee/e2ee.service.ts:64-87 | Under every interleaving of publishes, claims, failures and clock advances, whichever available package a query settles on, no package is handed out twice, each matches the requested user and suite, and was unexpired when the claim's transaction started. |
| `KeyPackages.PublishAdds` | backend/src/modules/e2ee/e2ee.service.ts:47-59 | One to a hundred packages are added in order, each with its own bytes and an expiry of the given days or 30; any other number adds none. |
| `KeyPackages.AvailableCanBeClaimed` | backend/src/modules/e2ee/e2ee.service.ts:69-85 | Whatever happened before, any package of the user and suite that is unclaimed, unexpired and not locked can be claimed; it is marked, and no other row changes. |
| `KeyPackages.InTimeExactly` | backend/src/modules/e2ee/e2ee.service.ts:69-85 | In all runs whose claims take at most `limit` ms, no package with more than `left` ms to live at the start of its claim is locked, or handed out, after its expiry, if and only if `left >= limit`: the query compares the expiry with the start of its transaction, however long it waits for its row. |
| `KeyPackages.PoolIsConserved` | backend/src/modules/e2ee/e2ee.service.ts:40-93 | For each user and suite, at all times, the numbers of available, handed out and expired unclaimed rows add up to published, and as many rows are claimed as were handed out. |
| `KeyPackages.ReadyMeans` | backend/src/modules/e2ee/e2ee.service.ts:89-93 | The count of available packages is the number of rows of the user and suite that are unclaimed and unexpired. |
| `KeyPackages.FatesPartition` | backend/src/modules/e2ee/e2ee.service.ts:89-93 | Ready, claimed and expired partition a user's packages of a suite. |
| `KeyPackages.StepConserves` | backend/src/modules/e2ee/e2ee.service.ts:40-87 | Each step adds to the pool what it publishes and claims as many as it hands out. |
| `MlsDelivery.GroupsAreOrdered` | backend/src/modules/e2ee/e2ee.service.ts:171-206 | Under every interleaving of group sends, with aborts, a group's messages are numbered 1 to n in commit order with the initial welcomes first, and its epoch is the number of its commits. |
| `MlsDelivery.CommitsAreCounted` | backend/src/modules/e2ee/e2ee.service.ts:187-191 | That number is the number of rows of kind commit. |
| `MlsDelivery.LoneSendAdds` | backend/src/modules/e2ee/e2ee.service.ts:171-206 | A send that meets no one else adds its message as it came, with the next sequence, advances the epoch for a commit only, and leaves other groups alone. |
| `MlsDelivery.CreateStarts` | backend/src/modules/e2ee/e2ee.service.ts:112-138 | A new group starts at epoch 0 with its welcomes, each for its own target and with its own bytes. |
| `MlsDelivery.MaxIsCount` | backend/src/modules/e2ee/e2ee.service.ts:179-185 | On such a log the maximum sequence is the number of messages. |
| `MlsDelivery.StepExtends` | backend/src/modules/e2ee/e2ee.service.ts:171-206 | No step renumbers or drops a group message or turns its epoch back. |
| `MlsDelivery.SaveWelcomes` | backend/src/modules/e2ee/e2ee.service.ts:122-138 | The loop saves the welcomes numbered from 1, at epoch 0, each for its own target. |
| `MlsDelivery.AfterIsExact` | backend/src/modules/e2ee/e2ee.service.ts:221-228 | A pull offers exactly the messages for this user after the sequence, in order, and none targeted at another. |
| `MlsDelivery.PageFills` | backend/src/modules/e2ee/e2ee.service.ts:228 | A pull returns min(limit or 100, 500, number of messages offered) messages. |
| `MlsDelivery.PagesJoin` | backend/src/modules/e2ee/e2ee.service.ts:221-228 | With messages committed in between, a page and a later pull from its last sequence are together exactly what there is, once and in order. |
| `E2eeService.Service.PublishKeyPackages` | backend/src/modules/e2ee/e2ee.service.ts:40-61 | One to a hundred packages are all added, in order, each with its own bytes, owner and expiry; any other number is refused and adds none. |
| `E2eeService.Service.ClaimKeyPackage` | backend/src/modules/e2ee/e2ee.service.ts:64-87 | Fails exactly when nothing is available; otherwise consumes an oldest available package and changes no other row. |
| `E2eeService.Service.CountAvailable` | backend/src/modules/e2ee/e2ee.service.ts:89-93 | The number of rows of the user and suite that are unclaimed and unexpired. |
| `E2eeService.Service.EnableE2ee` | backend/src/modules/e2ee/e2ee.service.ts:110-142 | Succeeds exactly when neither flag nor group is there; then the group starts with its welcomes, in good order, and the flag is set; so flag and group stay together. |
| `E2eeService.Service.SendMlsMessage` | backend/src/modules/e2ee/e2ee.service.ts:157-206 | Appends the message as it came with the next sequence, advances the epoch on a commit only, and leaves other groups alone. |
| `Base64.RoundTrip` | backend/src/modules/crypto/envelope-crypto.service.ts:38 | Decoding undoes encoding for byte strings of every length (section 4 of RFC 4648). |
| `Base64.EncodedLength` | backend/src/modules/crypto/envelope-crypto.service.ts:38 | Four letters for every three bytes begun. |
| `Base64.EncodedAvoidsColon` | backend/src/modules/crypto/envelope-crypto.service.ts:38 | The encoding never holds a colon. |
| `Base64.GroupReads` | backend/src/modules/crypto/envelope-crypto.service.ts:38 | Three bytes are printed as one number of 24 bits, six bits at a time from the top. |
| `Base64.TailReads` | backend/src/modules/crypto/envelope-crypto.service.ts:38 | One or two last bytes are padded with zero bits, and the letters with equals signs. |
| `Base64.AlphabetRuns` | backend/src/modules/crypto/envelope-crypto.service.ts:38 | The alphabet of RFC 4648: capitals, small letters, digits, plus, slash. |
| `Base64.ValueMeans` | backend/src/modules/crypto/envelope-crypto.service.ts:59 | The reader takes the letters of the alphabet and the two URL-safe ones. |
| `Strings.SplitOfTwo` | backend/src/modules/crypto/envelope-crypto.service.ts:58 | Splitting two colon-free parts at a run of colons gives the parts back. |
| `Strings.PiecesAvoidSeparator` | backend/src/modules/crypto/providers/local-kms.provider.ts:27-28 | No piece of a split holds the one-letter separator. |
| `Strings.JoinSplit` | backend/src/modules/crypto/envelope-crypto.service.ts:58 | Joined again with the separator, the pieces of a split are the text. |
| `Strings.IndexOf` | backend/src/modules/crypto/envelope-crypto.service.ts:58 | The first position at or after the start where the separator occurs. |
| `Strings.TrimCutsSpace` | backend/src/modules/messages/messages.service.ts:59 | What is left is the middle of the text, starts and ends with no white space, and what is cut off is nothing else. |
| `Strings.SpaceMeans` | backend/src/modules/messages/messages.service.ts:59 | White space is the 25 code points of ECMAScript. |
| `LocalKms.Load` | backend/src/modules/crypto/providers/local-kms.provider.ts:15-36 | The constructor throws or leaves a ring whose ids hold no colon and whose active key exists: the configured one or else the last inserted. |
| `LocalKms.LoadPairs` | backend/src/modules/crypto/providers/local-kms.provider.ts:26-35 | The loop over the list reads every pair in order and stops at the first bad one. |
| `LocalKms.AddPairsOk` | backend/src/modules/crypto/providers/local-kms.provider.ts:26-33 | Every key read has 32 bytes and an id without a colon. |
| `LocalKms.AddPairReads` | backend/src/modules/crypto/providers/local-kms.provider.ts:27-32 | A printed pair is read back: the decoded key under its trimmed identifier, in place of an earlier one; only 32-byte keys are taken. |
| `LocalKms.AddPairsRead` | backend/src/modules/crypto/providers/local-kms.provider.ts:26-33 | Of a printed list, every identifier has the last key given for it, and no other identifier has one. |
| `LocalKms.ParsePrint` | backend/src/modules/crypto/providers/local-kms.provider.ts:49-66 | Parsing undoes printing of the length-prefixed layout. |
| `LocalKms.PrintParse` | backend/src/modules/crypto/providers/local-kms.provider.ts:61-66 | Printing what was parsed gives the buffer back if and only if the tag was not cut short. |
| `LocalKms.ReadFrame` | backend/src/modules/crypto/providers/local-kms.provider.ts:61-66 | The cursor loop computes the parse of the buffer, with the same errors. |
| `LocalKms.UnwrapWrap` | backend/src/modules/crypto/providers/local-kms.provider.ts:42-70 | A wrapped key unwraps to itself under every later ring that kept its keys; it is 30 bytes longer. |
| `LocalKms.WrapMeans` | backend/src/modules/crypto/providers/local-kms.provider.ts:42-56 | The wrapped form holds the iv as drawn and a 16-byte tag around what the active key opens to the data key. |
| `LocalKms.UnwrapMeans` | backend/src/modules/crypto/providers/local-kms.provider.ts:58-70 | An answer is exactly what the named key opens; an unknown key has none. |
| `LocalKms.ParseFails` | backend/src/modules/crypto/providers/local-kms.provider.ts:61-64 | Reading fails exactly when the buffer ends before the length of the tag. |
| `LocalKms.UnwrapStable` | backend/src/modules/crypto/providers/local-kms.provider.ts:58-70 | More keys never change an answer that the ring could already give. |
| `EnvelopeCrypto.UnwrapDekId` | backend/src/modules/crypto/envelope-crypto.service.ts:58-60 | For every id without a colon, splitting and decoding `keyId::b64` gives the KMS its own arguments back. |
| `EnvelopeCrypto.DecryptEncrypt` | backend/src/modules/crypto/envelope-crypto.service.ts:30-53 | Decryption undoes encryption, under the same ring or any later one that kept its keys. |
| `EnvelopeCrypto.EncryptMeans` | backend/src/modules/crypto/envelope-crypto.service.ts:30-40 | The body is sealed under the data key and the iv drawn for it, with a 16-byte tag; the identifier is the active key's name and the wrapped data key. |
| `EnvelopeCrypto.DecryptStable` | backend/src/modules/crypto/envelope-crypto.service.ts:42-53 | A payload that can be read keeps its text when keys are added. |
| `EnvelopeCrypto.DekIdFitsColumn` | backend/src/database/migrations/1717000000000-Phase2.ts:10 | The stored identifier fits its 128-letter column if and only if the active key's id has at most 42 letters. |
| `EnvelopeCrypto.CacheIsTransparent` | backend/src/modules/crypto/envelope-crypto.service.ts:30-64 | Over every sequence of overlapping `unwrap` and `encrypt` calls and clock advances, each answer equals the KMS's own, each payload decrypts to its text, and the cache never holds more than 5001 entries. |
| `EnvelopeCrypto.StoreAgrees` | backend/src/modules/crypto/envelope-crypto.service.ts:61-62 | Clearing and adding keep the cache in agreement with the KMS and within its bound. |
| `EnvelopeCrypto.StoreMeans` | backend/src/modules/crypto/envelope-crypto.service.ts:61-62 | More than 5000 entries are cleared, and a new entry is good for 60 seconds. |
| `EnvelopeCrypto.EnvelopeCryptoService.CheckCache` | backend/src/modules/crypto/envelope-crypto.service.ts:56-57 | A hit is exactly an unexpired entry, in a buffer that was unwrapped for this identifier and holds the entry's bytes. |
| `EnvelopeCrypto.EnvelopeCryptoService.AskKms` | backend/src/modules/crypto/envelope-crypto.service.ts:58-60 | The KMS's answer, in a buffer of its own. |
| `EnvelopeCrypto.EnvelopeCryptoService.Remember` | backend/src/modules/crypto/envelope-crypto.service.ts:61-62 | The cache becomes the cleared-or-kept cache with the new entry, still valid. |
| `EnvelopeCrypto.EnvelopeCryptoService.UnwrapKey` | backend/src/modules/crypto/envelope-crypto.service.ts:55-64 | Same bytes or same error as asking the KMS directly. |
| `EnvelopeCrypto.EnvelopeCryptoService.DecryptBody` | backend/src/modules/crypto/envelope-crypto.service.ts:42-53 | Same result as decrypting without a cache. |
| `EnvelopeCrypto.EnvelopeCryptoService.GenerateDataKey` | backend/src/modules/crypto/envelope-crypto.service.ts:31 | The data key comes in a buffer of its own, in which it is recorded as pending, with its wrapped form. |
| `EnvelopeCrypto.EnvelopeCryptoService.SealAndWipe` | backend/src/modules/crypto/envelope-crypto.service.ts:32-39 | The payload is the specified one, the pending buffer ends all zero, and no buffer that was ever unwrapped, cached or not, changes. |
| `EnvelopeCrypto.EnvelopeCryptoService.EncryptBody` | backend/src/modules/crypto/envelope-crypto.service.ts:30-40 | Without interruption: the specified payload, and nothing left pending. |
| `EnvelopeCrypto.EnvelopeCryptoService.DecryptDataKey` | backend/src/modules/crypto/envelope-crypto.service.ts:58-60 | Splitting, decoding and asking the provider computes the specified answer, errors included. |
| `CryptoSchedule.Overlap` | backend/src/modules/crypto/envelope-crypto.service.ts:30-64 | Every interleaving of the halves of `unwrap` and `encrypt` on the real buffers keeps pending keys apart from unwrapped ones, does exactly what the cache as a value does, and leaves every unwrapped buffer as it was. |
| `CryptoSchedule.StepAll` | backend/src/modules/crypto/envelope-crypto.service.ts:30-64 | The same from any calls that are already suspended. |
| `CryptoSchedule.BeginUnwrap` | backend/src/modules/crypto/envelope-crypto.service.ts:56-60 | The half of `unwrap` before the wait. |
| `CryptoSchedule.EndUnwrap` | backend/src/modules/crypto/envelope-crypto.service.ts:61-63 | The half after it, on the cache as others left it meanwhile. |
| `CryptoSchedule.BeginEncrypt` | backend/src/modules/crypto/envelope-crypto.service.ts:31 | The half of `encrypt` before the wait. |
| `CryptoSchedule.EndEncrypt` | backend/src/modules/crypto/envelope-crypto.service.ts:32-39 | The half after it: the wipe changes nothing that other suspended calls rely on. |
| `Luhn.Check` | backend/src/modules/moderation/content-scanner.service.ts:71-81 | The right-to-left loop decides the recursively defined Luhn sum, for digit strings of any length. |
| `Luhn.SumReads` | backend/src/modules/moderation/content-scanner.service.ts:74-79 | Digit by digit from the right: the last counts once, the one before it as the digit sum of its double, and so on. |
| `Luhn.SumOfUpdate` | backend/src/modules/moderation/content-scanner.service.ts:74-79 | Changing one digit changes the sum by the difference of its weights at that position. |
| `Luhn.SingleErrorIsCaught` | backend/src/modules/moderation/content-scanner.service.ts:71-81 | Changing any one digit of a valid number makes it invalid. |
| `Luhn.SwapIsCaught` | backend/src/modules/moderation/content-scanner.service.ts:71-81 | Swapping two neighbours of a valid number keeps it valid if and only if they are equal, or 0 and 9. |
| `Luhn.CheckDigitIsUnique` | backend/src/modules/moderation/content-scanner.service.ts:71-81 | Every prefix has exactly one valid check digit. |
| `Patterns.MatchShape` | backend/src/modules/moderation/content-scanner.service.ts:25-55 | No match of any of the five patterns holds a square bracket, and each holds a digit or an at sign. |
| `Patterns.OnlySound` | backend/src/modules/moderation/content-scanner.service.ts:25-55 | If every class of a pattern accepts only certain letters, so do all its matches. |
| `Patterns.NeedsSound` | backend/src/modules/moderation/content-scanner.service.ts:25-55 | If a pattern forces a letter of some kind, every match holds one. |
| `Patterns.OnlyDigitsReads` | backend/src/modules/moderation/content-scanner.service.ts:26 | Dropping what is not a digit keeps every digit in its place. |
| `Patterns.CardMatches` | backend/src/modules/moderation/content-scanner.service.ts:25 | The card pattern matches only 13 to 19 digits with spaces and hyphens among them. |
| `Patterns.PlainCardsMatch` | backend/src/modules/moderation/content-scanner.service.ts:25 | And every run of 13 to 19 digits. |
| `Patterns.AccountMatches` | backend/src/modules/moderation/content-scanner.service.ts:36 | The account pattern matches exactly two letters, two digits and 10 to 30 letters or digits. |
| `ContentScanner.Scan` | backend/src/modules/moderation/content-scanner.service.ts:20-69 | A kind is flagged exactly if the engine reports, in the text that its pass receives, a match that qualifies; cards exactly if the input itself has one with 13 to 19 digits and a valid Luhn sum; every flag has its marker, letter by letter, in the final text; with no flags the text is unchanged; the score is 0.3 per flag, at most 1. |
| `ContentScanner.RunPasses` | backend/src/modules/moderation/content-scanner.service.ts:20-66 | The loop computes the five passes composed in order. |
| `ContentScanner.Replace` | backend/src/modules/moderation/content-scanner.service.ts:25-33 | One pass of `replace` with a callback computes the pieces of the text, markers in place of the removed ones. |
| `ContentScanner.ShouldRedact` | backend/src/modules/moderation/content-scanner.service.ts:26-32 | A card match is replaced exactly for 13 to 19 digits with a valid Luhn sum, a phone match exactly for 8 to 15 digits, any other match always. |
| `ContentScanner.HitsArePieces` | backend/src/modules/moderation/content-scanner.service.ts:25-64 | Every match that the engine reports is a piece of its own, removed exactly if it qualifies. |
| `ContentScanner.FlagMeansHit` | backend/src/modules/moderation/content-scanner.service.ts:20-66 | A kind is flagged exactly if its own pass was given a match that qualifies, in the text that the earlier passes left. |
| `ContentScanner.CardFlagMeans` | backend/src/modules/moderation/content-scanner.service.ts:25-33 | Cards are flagged exactly if the engine reports a match in the input with 13 to 19 digits and a valid Luhn sum. |
| `ContentScanner.RenderReads` | backend/src/modules/moderation/content-scanner.service.ts:25-64 | A pass copies what it keeps and writes one marker for each piece that it removes. |
| `ContentScanner.MarkersRead` | backend/src/modules/moderation/content-scanner.service.ts:30-59 | The five markers, letter by letter. |
| `ContentScanner.PiecesCoverText` | backend/src/modules/moderation/content-scanner.service.ts:25-64 | The pieces, put together again, are the text: nothing is lost or moved. |
| `ContentScanner.RemovedBelongs` | backend/src/modules/moderation/content-scanner.service.ts:25-64 | Whatever a pass removes matches its pattern; a card has 13 to 19 digits and a valid Luhn sum, a phone number 8 to 15 digits. |
| `ContentScanner.NothingFound` | backend/src/modules/moderation/content-scanner.service.ts:25-64 | A pass that removes nothing returns the text. |
| `ContentScanner.FoundLeavesMarker` | backend/src/modules/moderation/content-scanner.service.ts:25-64 | A pass that removes something leaves its marker. |
| `ContentScanner.MatchMissesMarker` | backend/src/modules/moderation/content-scanner.service.ts:25-64 | A match and a marker never share a character. |
| `ContentScanner.PassKeepsMarker` | backend/src/modules/moderation/content-scanner.service.ts:25-64 | A marker survives every later pass. |
| `ContentScanner.FlagsHaveMarkers` | backend/src/modules/moderation/content-scanner.service.ts:20-69 | After any number of the passes, every flag so far has its marker in the text. |
| `ContentScanner.NoFlagsNoChange` | backend/src/modules/moderation/content-scanner.service.ts:20-69 | No flag means no change, after any number of passes. |
| `ContentScanner.FlagsAreDistinct` | backend/src/modules/moderation/content-scanner.service.ts:22-66 | Flags come in the order card, account, code, email, phone, each at most once. |
| `ContentScanner.ScoreMeans` | backend/src/modules/moderation/content-scanner.service.ts:67 | The score is 0.3 per kind, at most 1. |
| `ContentScanner.FlaggedMeansTwoKinds` | backend/src/modules/messages/messages.service.ts:138 | The score reaches the threshold exactly for two or more kinds. |
| `RefreshTokens.OneLiveTokenPerLogin` | backend/src/modules/auth/refresh-tokens.service.ts:26-77 | In every run of whole calls, of two tokens of one login one is further down the chain, and the earlier one is revoked: at most the newest is live. |
| `RefreshTokens.LoginIsOneChain` | backend/src/modules/auth/refresh-tokens.service.ts:65-75 | The same for every table of chains. |
| `RefreshRaces.AloneIsRotate` | backend/src/modules/auth/refresh-tokens.service.ts:43-77 | The statements of one `rotate`, run without interference, are the atomic rotation. |
| `RefreshRaces.RotatesAgainExactly` | backend/src/modules/auth/refresh-tokens.service.ts:45-75 | However the statements of further calls interleave, a revoked token gets another successor in some continuation if and only if a rotation of it is in flight. |
| `RefreshRaces.ComesBackExactly` | backend/src/modules/auth/refresh-tokens.service.ts:48-75 | A user without live tokens can get one without signing in, in some continuation, if and only if a rotation of theirs is in flight: reuse detection misses calls that had already read their token. |
| `RefreshRaces.AloneKeepsChains` | backend/src/modules/auth/refresh-tokens.service.ts:43-96 | In every interleaving in which no call reads a live token while another rotation of it is in flight, logins stay single chains. |
| `RefreshRaces.TwoRotationsForkTheChain` | backend/src/modules/auth/refresh-tokens.service.ts:65-75 | Any two rotations of one token that are both before their saves can be run to two live successors. |
| `RefreshRaces.StepOnlyRevokes` | backend/src/modules/auth/refresh-tokens.service.ts:26-96 | No statement removes or moves a row, or un-revokes one. |
| `RefreshTokens.DoKeepsChains` | backend/src/modules/auth/refresh-tokens.service.ts:26-96 | Every call keeps the chains: a parent is earlier, of the same user, revoked, and has one child. |
| `RefreshTokens.RunKeepsChains` | backend/src/modules/auth/refresh-tokens.service.ts:26-96 | So does every run. |
| `RefreshTokens.RotatesAtMostOnce` | backend/src/modules/auth/refresh-tokens.service.ts:43-77 | Over any run each token rotates successfully at most once, and is revoked from then on. |
| `RefreshTokens.ReuseRevokesAll` | backend/src/modules/auth/refresh-tokens.service.ts:48-59 | Presenting a revoked token is refused and leaves its user without a live token (compare section 4.14.2 of RFC 9700). |
| `RefreshTokens.NoneLiveUntilLogin` | backend/src/modules/auth/refresh-tokens.service.ts:48-77 | A user without a live token has none until the next login, whatever is called. |
| `RefreshTokens.DoOnlyRevokes` | backend/src/modules/auth/refresh-tokens.service.ts:26-96 | No call removes or moves a row, and none un-revokes one. |
| `RefreshTokens.Find` | backend/src/modules/auth/refresh-tokens.service.ts:45 | The lookup finds a row with the hash, or there is none. |
| `RefreshTokens.RefreshTokensService.RotateToken` | backend/src/modules/auth/refresh-tokens.service.ts:43-77 | Row by row: an unknown or expired token changes nothing; a revoked one revokes all live rows of its user as compromised; a live one is marked rotated and answered with one live successor, unless the new hash is taken. |
| `RefreshTokens.RotateMeans` | backend/src/modules/auth/refresh-tokens.service.ts:43-77 | The same of the specified rotation that the runs are made of. |
| `RefreshTokens.RefreshTokensService.Issue` | backend/src/modules/auth/refresh-tokens.service.ts:26-41 | One live row is added, with its user, hash, parent and expiry, or nothing on a taken hash. |
| `RefreshTokens.RefreshTokensService.UpdateWhere` | backend/src/modules/auth/refresh-tokens.service.ts:79-96 | Exactly the rows of the user, or with the hash, that were not revoked are marked with the time and reason. |
| `RefreshTokens.RefreshTokensService.RevokeToken` | backend/src/modules/auth/refresh-tokens.service.ts:88-96 | The presented token is revoked afterwards, and no other row changes. |
| `RefreshTokens.RefreshTokensService.RevokeAllForUser` | backend/src/modules/auth/refresh-tokens.service.ts:79-86 | Every token of the user is revoked afterwards, and no other row changes. |
| `RateLimiter.CounterIsExact` | ws-gateway/src/rate-limit.ts:9-14 | With an `incr` at most 5001 ms late and its `expire` at any later time or never, a minute's counter equals the number of its requests: the expiry never resets it. |
| `RateLimiter.EachMinuteIsExact` | ws-gateway/src/rate-limit.ts:9-14 | Each minute accepts exactly min(limit, requests), for every trace. |
| `RateLimiter.AnySpanAtMostTwice` | ws-gateway/src/rate-limit.ts:9-14 | Any 60-second span accepts at most twice the limit. |
| `RateLimiter.SlowCommandBreaksTheCount` | ws-gateway/src/rate-limit.ts:12 | A concrete trace: an `incr` that is 5002 ms late lets a minute accept more than its limit. |
| `RateLimiter.ExactUpToTheSlack` | ws-gateway/src/rate-limit.ts:12 | All minutes of all traces are limited exactly if and only if no `incr` is more than 5001 ms late. |
| `RateLimiter.RedisRateLimiter.Check` | ws-gateway/src/rate-limit.ts:9-14 | The stored counters are those of the whole trace, whether or not an `expire` followed a first count, and the answer compares this request's count with the limit. |

## Left out

- Controllers, guards, validation, JWT, password hashing, access checks (`assertCanAccess`): plumbing or foreign libraries; calls are modelled from the point where the check has passed.
- Full regular-expression semantics: which of several possible matches the engine picks is not modelled; lone surrogates are outside the string model.
- Cryptographic strength: AES-GCM is assumed only to open what it sealed, SHA-256 hashes of tokens are opaque strings, and the uniqueness of uuids is the freshness test of the insert step.
- The text returned by a replayed send: the code returns the new request's text with the stored id and sequence; the model states id and sequence only.
- Limits below 1 in listings: the query builder's treatment of a limit of 0 or less is not part of this model; a page with limit 0 is empty here.
- `lastReadSequence`: it is overwritten unconditionally and is not monotone; only its new value is stated.
- The epoch column of a group message: the caller's value is stored unchecked; only the group's own epoch is governed.
- The order in which events of one conversation are published: the outbox is ordered by creation time across transactions, so none is claimed; `handle`'s own effects (NATS, email, search) are a single outcome.
- Row locks taken implicitly by foreign keys, and lock-wait deadlocks: leaving them out only allows more interleavings; a deadlock victim is an abort.
- Soft delete, hide, anonymise, status changes and membership changes are single steps of the interleaved model; the read before the save in `softDelete`, and the user row, sessions and audit entries of anonymise, are not split out.
- MessagesService.Service.MarkReadUpTo: requires a conversation with a log, because the caller's access check has already found it.
- RefreshTokens.RefreshTokensService.RotateToken: runs as one step; `rotate` is not one transaction in the source, and its statements are interleaved in `RefreshRaces`.
- ContentScanner.FlaggedMeansTwoKinds: the score is computed over reals, not floating point; the products of 0.3 with 0 to 5 compare with 0.6 in the same way.
- EnvelopeCrypto.EnvelopeCryptoService.UnwrapKey: runs without interruption; overlapping calls are `CryptoSchedule.Overlap`, and a key list that changes needs a restart, which empties the cache.
- OutboxWorker.Worker.Drain: timers and the `running` flag are not modelled; the clock stands still during the drain.
- The AWS KMS provider, S3 attachments, presence, Socket.IO fan-out, metrics, tracing, health, infrastructure, scripts and frontend: I/O and configuration.
- Search indexing, email notifications and report bookkeeping: the code keeps no agreement with the log there that could be stated.
- The duplicate-key recovery of `getOrCreateForOrder`: it depends on database behaviour that the code does not show.
