# BidLane in Dafny

BidLane takes bids from a Redis stream, appends them to a PostgreSQL ledger, and announces them to
subscribers from a transactional outbox. Each hop may be repeated after a crash, and any number of
processes may work at once. The design promises that the ledger is nevertheless gap-free,
append-only and free of duplicates, that no message is acknowledged before its bid is committed, and
that subscribers who drop repeated event identifiers see every bid once and in order. This project
models those parts and proves the promises, over every run and every interleaving where the promise
is about concurrency.

`dafny verify dfyconfig.toml` checks the whole project.

## How it is built

**The ledger.** `Ledger` says what one append means when nothing runs beside it: an auction is its
terms, close time, extension count and bids, and a bid's number is its place. `Transactions` is the
system as it runs: both append transactions statement by statement, READ COMMITTED, with private
writes, exclusive row locks, the FOR KEY SHARE locks of foreign-key checks, waits on uncommitted unique
keys, and a rollback possible before any statement. `Refinement` proves that every run of the second is
a history of the first. `Progress` says when transactions deadlock and that one left alone ends;
`Deadlocks` is a reachable deadlock. `Histories` (extensions, event replay) and `Snapshots` (what an
earlier state says about a later one, clock readings) draw consequences. `Ledgers` has the two append
methods in the imperative form in which the program writes them, with failing statements and the
deferred rollback, each proved against the atomic append.

**The consumer.** `Streams` is one stream with its group: undelivered, pending (owner, idle time) and
acknowledged entries. `Consumer` is the ledger consumer in imperative form; `Recovery` and `Positions`
hold what its loops need. It keeps a history of the positions it has settled, and every method proves
that the ledger is what that history makes of the first one. `Settlement` is the crash-free meaning of
a stream, a fold over messages in identifier order; `Prices` is the same with the price rule as the
hook. `Validation`, `StreamId`, `StreamFields` and `Decimal` are the pure rules and text formats.
`Incidents` has concrete incidents: a commit that fails and takes effect, an early restart, and a message
that nobody gets past.

**The relay.** `Outbox` is the outbox table with any number of relays that lock, send, mark, commit
or die; `OutboxOrder` is about what arrives and in which order; `Relay` is `PublishNext` and the batch
loop in imperative form.

**All of it.** `Pipeline` puts the statement machine, the consumer group with any number of workers,
and the relays into one machine, with claim stealing, acknowledgements by a worker that no longer owns
the entry, transactions that outlive their worker, and crashes anywhere. `EndToEnd` and `Delivery`
prove what the channel holds. `Origins` says where the bids of a ledger come from, and when the prices of
several workers rise. `Entries` shows that the consumer as written is one of the workers. `Runs` and
`Witnesses` put concrete runs together that show what the
pipeline does not promise.

## Assumptions

- `(auction_id, idempotency_key)` is unique, and an insert waits for an uncommitted equal key. The
  uniqueness of `(auction_id, sequence_no)` (migrations/000001_immutable_ledger.up.sql) and of an event
  per sequence number (migrations/000006_transactional_outbox.up.sql) is not assumed: both are proved,
  for mixed histories.
- An INSERT into `bids` or `auction_sequences` ends with the check of its reference to `auctions`
  (migrations/000001_immutable_ledger.up.sql, 000002_sequence_assignment.up.sql), which takes the auction
  row FOR KEY SHARE; that conflicts with FOR UPDATE and with nothing else here.
- `extension_window` and `extension_interval` are positive and `max_extensions` is not negative, as the
  CHECK constraints of migrations/000005_anti_snipe.up.sql say; all three are constant per auction.
- A commit is atomic. A failing commit may have taken effect. Row locks last until the transaction
  ends. Who gets a free row among several that wait for it is left open. PostgreSQL ends a deadlock by
  rolling one transaction back, which is a step of the machine.
- Outbox identifiers are unique; PostgreSQL orders them as numbers. Relays update only
  `published_at` and `publish_attempts`, the engine writes only the other columns.
- Times are integers, in milliseconds. A stream position stands for the entry's identifier.
- XADD gives each message an identifier after all those before it, with milliseconds below 2^63.
- XREADGROUP hands out undelivered entries in order; XAUTOCLAIM scans the pending list in order and
  takes what has been idle long enough; XACK removes an entry whoever owns it.
- Theorems about the order on the channel take as hypotheses that `clock_timestamp()` is strictly later
  at a later statement, and that one relay transaction is open at a time.

## Where the code does not keep a promise

- The two append paths can deadlock on one auction. The row-lock path takes the counter row first, and
  its insert then needs a share of the auction row; the anti-snipe path takes the auction row first and
  then wants the counter row. `Deadlocks.MixedDeadlock` reaches that state. `Progress.DeadlockExactly`
  shows that this pair is the only deadlock there is, and `Progress.NoDeadlock` that there is none while
  no auction has open transactions of both paths.
- "PostgreSQL did not commit. Leave the Redis entry pending" (internal/engine/ledger_consumer.go:292): an
  error leaves the ledger as it was, except when it is the commit of an insert that failed.
  `Ledgers.LedgerStore.AppendBidIdempotentWithAntiSnipe` and `Consumer.LedgerConsumer.PersistEntry` say so
  error by error; `Incidents.ErroredCommit` is a failed commit that has taken effect.
- A redelivered message meets the validation hook before the key lookup. With the price rule a
  committed bid is then always refused and a rejection event is emitted for it
  (`Prices.CommittedIsRefusedOnReplay`, and `Witnesses.AcceptedAndRefused` for a run). "Never both
  accepted and rejected" is therefore false; the ledger is unaffected (`Settlement.SettleTwice`).
- Prices need not rise when several consumers judge at once, because the hook reads the price outside
  the transaction (`Witnesses.PricesFall`). A verdict guards the ledger exactly when the price has not
  gone up since (`Prices.StaleVerdict`), and in every run in which it has not gone up by the commit prices
  rise (`Origins.PricesRiseTogether`). One consumer at a time is always such a run
  (`Consumer.LedgerConsumer.PricesRise`). The row-lock path has no lateness check and announces nothing.
- A message that the hook lets through but the ledger cannot take (unreadable, late, unknown auction,
  not positive) stops the consumer and stays pending. `Settlement.Passes` is the exact condition for
  going on; `Incidents.StopsAtLate` is a call that stops, and `Incidents.NeverGetsPast` shows that no
  number of restarts helps.
- A consumer that starts before every pending entry has been idle for `RecoveryMinIdle` lets fresh
  entries overtake pending ones. `Consumer.LedgerConsumer.Round` shows that a round that settles fresh
  entries keeps the acknowledged ones a prefix of the stream exactly when every pending entry was idle
  long enough; `Incidents.EarlyRestart` is a restart that ends with another ledger, as
  `Settlement.OvertakingShows` says it must.

## Model

| member | source | states |
|---|---|---|
| Ledger.AppendExact | internal/store/postgres/anti_snipe.go:103-410 | the atomic append in the columns themselves, for both paths: which place the caller is told, when a bid is inserted and that nothing else changes, exactly when the auction is extended and by what, and exactly when a call is refused and why |
| Refinement.CommitIsAppend | internal/store/postgres/anti_snipe.go:79-410 | what a commit installs over the rows committed by then, from values read earlier under locks, is the atomic append, and the caller is told the atomic answer |
| Refinement.CommitSparesOthers | internal/store/postgres/anti_snipe.go:79-89 | a commit leaves everything that another open transaction has read and relies on as it was, because what that one relies on it has locked |
| Refinement.NothingUnexpected | internal/store/postgres/anti_snipe.go:234-313 | the branches for a missing counter row, a counter update that misses, and a conflict without a row are dead |
| Refinement.Serializable | internal/store/postgres/anti_snipe.go:51-410 | in every interleaving of both paths with rollbacks anywhere, the committed tables and outbox are those of the finished calls applied one at a time in commit order, and every answer and every refusal is the atomic append's at that place |
| Refinement.CallsAreAtomic | internal/store/postgres/ledger.go:69-245 | at every point of every run each finished call was told what the atomic append returns at its place, and the committed books and outbox are what these appends make of the first ones |
| Refinement.GapFree | internal/store/postgres/ledger.go:88-237 | in every reachable state of mixed histories an auction's sequence numbers are exactly 1 to last_seq in commit order and its keys are distinct |
| Progress.WaitsClimb | internal/store/postgres/anti_snipe.go:79-230 | a wait leads to a higher rung (auction row before counter row) or is the foreign-key check of a row-lock insert waiting for an anti-snipe transaction on the same auction; no insert of a bid waits for an uncommitted key |
| Progress.DeadlockExactly | internal/store/postgres/ledger.go:88-205 | in every reachable state of mixed histories a cycle of waits exists exactly when some auction has a row-lock transaction with the counter row at a foreign-key check and an anti-snipe transaction with the auction row waiting for the counter; otherwise some transaction open on each busy auction can run |
| Progress.NoDeadlock | internal/store/postgres/ledger.go:88-118 | no deadlock while no auction has open transactions of both paths |
| Progress.RunsAlone | internal/store/postgres/anti_snipe.go:51-410 | a transaction left alone ends, and its call returns what the atomic append returns |
| Progress.ConflictUnreachable | internal/store/postgres/anti_snipe.go:200-275 | in every reachable state, row-lock transactions beside it or not, an anti-snipe lookup that found nothing still finds nothing at the insert, so the duplicate branch is never taken |
| Deadlocks.MixedDeadlock | internal/store/postgres/ledger.go:110-180 | a concrete reachable state in which a row-lock and an anti-snipe transaction on one auction wait for each other and nobody can run |
| Histories.ReplayClosedForm | internal/store/postgres/anti_snipe.go:328-365 | the close time is the initial one plus the interval once per extension, and the count stays within max_extensions |
| Histories.RunClosedForm | internal/store/postgres/anti_snipe.go:328-365 | the same in every reachable state of the statement machine |
| Histories.AnswersStand | internal/store/postgres/ledger.go:184-245 | every call of either path that was answered without an error names, in every later state, the committed row of its key by its number, and its own bid when it was told that it inserted it |
| Histories.OneNumberPerKey | internal/store/postgres/ledger.go:184-245 | all calls for one key are told one number, on whichever path, and at most one that it inserted the bid |
| Histories.LogIsAppendOnly | internal/store/postgres/anti_snipe.go:394-410 | finished calls stay on record as they were answered |
| Histories.ExtensionWindow | internal/store/postgres/anti_snipe.go:333-348 | the k-th extending bid arrived within the window before the close time extended k-1 times, and raises the count from k-1 to k |
| Histories.ExtendingTimesIncrease | internal/store/postgres/anti_snipe.go:333-348 | when the interval is at least the window, extending bids have strictly increasing times, so one instant extends at most once |
| Histories.EventNumbersRise | internal/store/postgres/outbox_event.go:27-57 | in mixed histories an auction's event numbers rise strictly along the outbox, so there is one event per sequence number |
| Histories.EventsTell | internal/store/postgres/outbox_event.go:27-70 | in mixed histories every committed event tells of a call that was answered: its bid, the time it was given as submission time, and just what the caller was told |
| Histories.EventsRebuildAuction | internal/store/postgres/outbox_event.go:27-89 | in anti-snipe-only histories an auction's events are its bids one by one with their numbers; folding them from the initial auction gives the current bids, close time and count, and the number of extending events is the rise of the count |
| Snapshots.RunIsLater | internal/store/postgres/anti_snipe.go:200-365 | along every run rows are only appended and the close time never moves back |
| Snapshots.LateAgainstEverySnapshot | internal/store/postgres/anti_snipe.go:103-153 | a transaction that finds its bid late does so for every earlier committed snapshot as well, and its key was in none of them: a bid accepted against any snapshot is never late, nor is a committed bid on replay |
| Snapshots.OutboxIdsDistinct | internal/store/postgres/outbox_event.go:27-57 | committed and private events have distinct identifiers in every reachable state |
| Snapshots.StampsFollowSequence | internal/store/postgres/anti_snipe.go:375-400 | with a strict clock, created_at rises along each auction's sequence in every interleaving |
| Ledgers.SelectSequence | internal/store/postgres/anti_snipe.go:103-133 | finds the number of the row with the key exactly when there is one |
| Ledgers.LedgerStore.AppendBidIdempotentWithAntiSnipe | internal/store/postgres/anti_snipe.go:39-411 | an answer is the atomic append's; in the rows, one has the key and the number told, it was inserted exactly when none had the key, then just that row and one event about it were added; a refusal is the atomic one and changes nothing; the zero time is refused, and only it; an error before the commit changes nothing; an error of the commit leaves nothing or the whole append, and nothing when the key was known |
| Ledgers.LedgerStore.AppendBidIdempotentRowLock | internal/store/postgres/ledger.go:65-245 | the same for the row-lock path, which leaves the outbox alone; a duplicate is told the number of the existing row |
| Incidents.ErroredCommit | internal/engine/ledger_consumer.go:287-295 | a call that returns an error although its bid is committed |
| Streams.StreamStore.AppendBid | internal/store/redis/streams.go:97-164 | appends exactly the fields of a well-formed bid under the identifier that follows the last one at this clock reading, so identifiers rise along the stream, and refuses any other bid; an error may hide an append |
| Settlement.NextIdLeast | internal/store/redis/streams.go:97-101 | the identifier that is assigned is the least one after the last one that is not before the clock reading |
| Streams.StreamStore.ReadGroup | internal/store/redis/streams.go:226-321 | delivers the next entries in order, up to the count or the end; they become pending and owned even when the reply fails, which without faults happens only when a message does not parse |
| Streams.StreamStore.Ack | internal/store/redis/streams.go:332-373 | moves one entry from pending to acknowledged whoever owns it, or fails with or without having done so |
| Streams.StreamStore.AutoClaimPending | internal/store/redis/recovery.go:18-109 | hands over, in order, pending entries of the scanned stretch, at least all that were idle long enough, and just those when no time passes; they get the consumer as owner and nothing enters or leaves the pending list |
| Streams.Scan | internal/store/redis/recovery.go:61-108 | XAUTOCLAIM's page: exactly the idle entries between the cursor and the next cursor, which moves past at least one entry |
| StreamFields.IngressRoundTrip | internal/store/redis/streams.go:112-155 | a bid is sent exactly when its texts are not empty and its amount is positive, is refused for the first of these that fails, and parseMessage reads back exactly what was sent |
| StreamFields.ParseMessageExact | internal/store/redis/streams.go:477-549 | a message reads as a given entry exactly when it has an identifier, carries the entry's four texts, and its amount is decimal text for the entry's amount within int64 |
| StreamFields.ParseMessageErrors | internal/store/redis/streams.go:477-549 | what is reported of any other message: its missing identifier, the first missing field, or an amount that spells no 64-bit number, whichever comes first |
| Decimal.ParseIntExact | internal/store/redis/streams.go:510-521 | exactly which texts are read as which 64-bit number, signs included |
| Decimal.LeadingDigit | internal/store/redis/stream_time.go:13-19 | decimal text counts its leading digit most |
| Decimal.PrintParses | internal/store/redis/stream_time.go:39-64 | reading undoes printing up to the width of int64 or uint64, and fails beyond it |
| StreamId.StreamEntryTimeExact | internal/store/redis/stream_time.go:21-75 | exactly which texts are accepted as stream identifiers, and their time |
| StreamId.NeverNegative | internal/store/redis/stream_time.go:52-57 | the branch for negative milliseconds is unreachable for every text |
| StreamId.FormatRoundTrip | internal/store/redis/stream_time.go:21-75 | every identifier that Redis issues gives back its milliseconds |
| StreamId.TimesFollowIds | internal/store/redis/stream_time.go:19-74 | later identifiers carry no earlier time and are different texts |
| Validation.EvaluateBidExact | internal/engine/bid_validation.go:158-308 | a bid is accepted exactly when it violates none of the fourteen rules, read over unbounded integers, and otherwise rejected for the first one violated, with the attempt, the snapshot and the true required minimum: the int64 arithmetic never wraps |
| Validation.GuardNeedsPositiveIncrement | internal/engine/bid_validation.go:275-283 | the overflow guard's own subtraction is exact exactly when the increment is not negative, so the order of the checks matters |
| Validation.BidValidator.Validate | internal/engine/bid_validation.go:131-156 | emits nothing for an accepted bid, and for a rejected one, before a verdict is returned without an error, one event with the attempt's and the snapshot's own columns, the first violated rule, and the true minimum exactly when that rule is about it |
| Settlement.ToBidExact | internal/engine/ledger_consumer.go:460-528 | which bid a message is, field by field: auction, bidder and key as its own fields parse, the number its amount spells, its identifier, its correlation text, and the time of its identifier |
| Settlement.ToBidErrors | internal/engine/ledger_consumer.go:460-514 | why a message that parses is not handed to the ledger, in the order of the checks |
| Settlement.SentIsKept | internal/engine/ledger_consumer.go:516-528 | what a producer sends is, field by field, the row that the stream puts into the ledger |
| Settlement.SettleTwice | internal/engine/ledger_consumer.go:223-372 | delivering a message again changes nothing, whatever the hook says the second time |
| Settlement.Resettle | internal/engine/ledger_consumer.go:223-372 | settling a stretch again from a message that is committed but not acknowledged gives the crash-free ledger |
| Settlement.PassesAgain | internal/engine/ledger_consumer.go:223-372 | a message stops the consumer at its first delivery exactly when it stops it at a second one |
| Settlement.AllPassJoin | internal/engine/ledger_consumer.go:223-372 | what passed before a crash and what passed after it, the redelivered message included, make up a stream that passes without crash |
| Settlement.KeepsFirstAcceptable | internal/engine/ledger_consumer.go:223-372 | the ledger that a stream leaves is the first acceptable message of each key, in stream order, and nothing else |
| Settlement.OvertakingShows | internal/engine/ledger_consumer.go:399-403 | if the later of two kept messages overtakes the earlier one, the ledger differs |
| Recovery.PrefixExactly | internal/engine/ledger_consumer.go:399-453 | when recovery took just the eligible entries and fresh ones were acknowledged after it, the acknowledged entries are a stream prefix exactly when all pending ones were eligible |
| Settlement.ClosingIsFinal | internal/engine/ledger_consumer.go:505-528 | once a message is late when its turn comes, no later message changes the ledger |
| Consumer.LedgerConsumer.ClosedForGood | internal/engine/ledger_consumer.go:505-528 | the same for the consumer on its stream, whose identifiers rise: after a late message the committed ledger stays what it was |
| Prices.PassesRulesExact | internal/engine/bid_validation.go:192-301 | what the hook asks of an entry, in the entry's own fields and the auction's own columns |
| Prices.ValidatedIsPersisted | internal/engine/bid_validation.go:259-306 | what the price hook accepts against the committed auction, the transaction takes |
| Prices.AcceptedIsNeverLate | internal/store/postgres/anti_snipe.go:147-153 | an entry that the rules accepted against any committed state of a run is never refused as late at any later point of it |
| Prices.StaleVerdict | internal/engine/bid_validation.go:268-306 | every amount that the rules let through on an older snapshot keeps prices rising now exactly when the price has not gone up since; otherwise the least such amount does not |
| Origins.PricesRiseTogether | internal/engine/bid_validation.go:268-307 | in every run of any number of workers in which, at each commit of a new bid, the price is not above the one on which its message was judged, prices rise in every world by at least the increment and never overflow |
| Prices.PricesGrow | internal/engine/bid_validation.go:268-307 | with one consumer the n-th amount is at least n increments above the opening price, amounts rise strictly, and the ledger is no longer than the increments that fit into int64 |
| Consumer.LedgerConsumer.PricesRise | internal/engine/ledger_consumer.go:223-372 | the same for the ledger of the consumer as written, whatever it claimed, in whatever order, and wherever it died |
| Witnesses.PricesFall | internal/engine/ledger_consumer.go:230-290 | a concrete run in which two workers judge the same snapshot and the lower amount is committed second |
| Prices.CommittedIsRefusedOnReplay | internal/engine/ledger_consumer.go:229-260 | with the price hook a committed message, redelivered at any later point, is always refused by validation |
| Witnesses.AcceptedAndRefused | internal/engine/ledger_consumer.go:229-260 | a concrete run that commits a bid, loses the acknowledgement to a crash, and then refuses and acknowledges the same message |
| Consumer.LedgerConsumer.PersistEntry | internal/engine/ledger_consumer.go:456-535 | on success the row with the message's own auction, bidder, key, amount, identifier and correlation is the last one of its auction, at the number told, or a row with its key was there at that number; the answer says which; an error other than that of the commit leaves the ledger as it was; without faults it succeeds exactly when the ledger answers |
| Consumer.LedgerConsumer.ProcessEntry | internal/engine/ledger_consumer.go:229-338 | commit before ack for one entry: acknowledged only if the hook turned it away or its key is in the ledger; without faults it goes on exactly when the message passes |
| Consumer.LedgerConsumer.ProcessEntries | internal/engine/ledger_consumer.go:223-372 | acknowledged entries are a prefix of settled ones and all passed, at most one settled entry is unacknowledged, the ledger is the fold of the settled ones, the count is right on success, and without faults only an entry that does not pass stops the loop |
| Consumer.LedgerConsumer.RecoverPage | internal/engine/ledger_consumer.go:409-452 | one page acknowledges what it scanned and found idle enough, settles it in stream order, and moves the cursor forward; the ledger stays the fold of the history |
| Consumer.LedgerConsumer.RecoverPending | internal/engine/ledger_consumer.go:384-454 | the loop ends; whatever was pending, it settles its claims in stream order and the ledger is the fold of the history with them; on success every entry idle for the configured time, or for 30 seconds when none is configured, is acknowledged, every other one is still pending when no time passes, and the count is the number of acknowledgements; every page is asked for with the recovery batch size, or the batch size when there is none; without faults only an entry that does not pass stops it |
| Consumer.LedgerConsumer.ProcessBatch | internal/engine/ledger_consumer.go:198-221 | settles a prefix of the fresh entries in order, on success all of them, and the count is the number of acknowledgements; the ledger is the fold of the history with them |
| Consumer.LedgerConsumer.Round | internal/engine/ledger_consumer.go:88-112 | one round of the main loop; when no time passes and a fresh entry was acknowledged, the acknowledged entries are a stream prefix exactly when every pending entry had been idle for the configured time, or 30 seconds when none is configured |
| Consumer.LedgerConsumer.Run | internal/engine/ledger_consumer.go:81-113 | from any pending list the ledger stays the fold of the history wherever the loop stops or dies; from an eligible one stream order is kept, after a full round nothing delivered is pending, and without faults it goes on when every message of the stream passes |
| Consumer.LedgerConsumer.RunWithRestarts | internal/engine/ledger_consumer.go:81-113 | crash-recovery equivalence: after any number of starts that die anywhere the ledger is the fold of the history, in which every acknowledged message passed; when restarts wait for eligibility, the acknowledged messages are a stream prefix that passes, the ledger is the fold of that prefix and at most one message more, and its bids are the first acceptable message of each key |
| Incidents.EarlyRestart | internal/engine/ledger_consumer.go:399-453 | a concrete restart before eligibility: the fresh message overtakes the pending one, and the final ledger is not the stream's |
| Incidents.LateStops | internal/engine/ledger_consumer.go:287-295 | a concrete message that no hook turns away and the ledger cannot take: it does not pass |
| Incidents.StopsAtLate | internal/engine/ledger_consumer.go:287-295 | the call that meets it stops with an error although nothing fails, and the entry stays pending |
| Incidents.NeverGetsPast | internal/engine/ledger_consumer.go:81-113 | however often the consumer is restarted it acknowledges and commits nothing |
| Consumer.LedgerConsumer.ProcessExactly | internal/engine/ledger_consumer.go:119-155 | on success exactly the next expected entries were settled in order and acknowledged; without faults, with enough messages and polls, only an entry that does not pass prevents it |
| Outbox.Accounting | internal/store/postgres/outbox.go:92-198 | for any number of relays and crashes an event has been sent once if marked, once per attempt that sent it and was rolled back, and once if an open attempt has sent it; attempts are 1 exactly when marked; no two relays hold one event |
| Outbox.SelectsOldest | internal/store/postgres/outbox.go:104-111 | what a relay locks is the unpublished and unlocked row with the least creation time, and among equal times the least identifier |
| Outbox.MarkedIsFinal | internal/store/postgres/outbox.go:105-198 | a marked event has been sent and is never sent again |
| OutboxOrder.StutteringOrder | internal/store/postgres/outbox.go:105-196 | with one relay at a time over sequenced rows, each auction's raw messages start at 1 and repeat or rise by one, whatever crashes between sending and marking |
| OutboxOrder.DrainedExactlyOnce | internal/store/postgres/outbox.go:92-198 | with nothing left to publish, the channel without repeated identifiers holds every committed event once and nothing else |
| OutboxOrder.DedupCountsUp | internal/store/postgres/outbox.go:105-196 | dropping repeated identifiers turns a stuttering channel into 1, 2, 3 and so on |
| Relay.OutboxStore.SelectFirst | internal/store/postgres/outbox.go:92-122 | an unpublished row such that no unpublished one was created before it, or at its time with a smaller identifier; none exactly when all are published |
| Relay.OutboxStore.PublishNext | internal/store/postgres/outbox.go:54-199 | what it sends is the oldest unpublished event in creation time and identifier; it marks it; on any failure it has sent nothing, or sent it unmarked, or done both; without a fault it succeeds |
| Relay.CallIsFourSteps | internal/store/postgres/outbox.go:92-198 | a successful call is select, publish, mark, commit of the many-relay machine |
| Relay.OutboxRelay.Run | internal/relay/outbox_relay.go:138-185 | drain refines sort: for every positive batch size the loop reaches an idle poll, having sent the pending events once each; creation times never fall along what it sends, and identifiers rise where they repeat |
| Pipeline.AcknowledgesSettled | internal/engine/ledger_consumer.go:325-336 | what any worker is about to acknowledge has its key committed or was turned away by the hook |
| Pipeline.StepKeepsInv | internal/engine/ledger_consumer.go:223-372 | every step of workers, transactions and relays keeps conservation, commit before ack, the ledger refinement and the relay's accounting |
| Pipeline.CommitBeforeAck | internal/engine/ledger_consumer.go:229-338 | in every reachable world the stream is the disjoint union of undelivered, pending and acknowledged, and behind each acknowledged entry stands a committed key or a verdict against it that preceded the acknowledgement and was given on a book committed before |
| Pipeline.LedgerRun | internal/engine/ledger_consumer.go:516-528 | every run of the pipeline holds a run of the statement machine that ends in its ledger, so what is proved of the ledger holds in every world |
| Origins.BidsComeFromMessages | internal/engine/ledger_consumer.go:229-290 | where only workers begin transactions, every ledger bid in every reachable world is a delivered message that the hook let through on a book committed then or earlier |
| Entries.ProcessEntryIsRun | internal/engine/ledger_consumer.go:229-338 | whatever one call of the consumer as written does to an entry is a run of the pipeline in which the worker judges, begins, hears and acknowledges, or dies on the way |
| EndToEnd.PublishedExactlyOnce | internal/store/postgres/outbox_event.go:27-89 | in every reachable world only committed events are on the channel, they are the ledger's bids one each, and once drained the channel without repeats holds exactly one event per bid |
| EndToEnd.CommittedIsSeenOnce | internal/engine/ledger_consumer.go:325-338 | once drained, a message whose key is in the ledger is seen as exactly one event of its key, also when the hook has turned it away on a later delivery |
| EndToEnd.AcknowledgedIsSeenOnce | internal/engine/ledger_consumer.go:247-338 | an acknowledged message whose key is in the ledger is seen exactly once when drained; one whose key is not was turned away, and no event of its key is ever on the channel |
| Delivery.DeliveredInOrder | internal/relay/outbox_relay.go:138-185 | with one relay at a time and a strict clock, each auction's raw messages stutter upwards, without repeats they are 1, 2, 3 and so on, and once drained they end at the last bid |

## Left out

- Consumer.LedgerConsumer.RecoverPending: the clauses about the order of the whole stream suppose that all pending entries are idle for the minimum at the start; the others do not.
- Consumer.LedgerConsumer.ProcessExactly: bounded by a number of polls, where the program polls until cancelled.
- Consumer.LedgerConsumer.Run: cancellation is a number of rounds; nothing is said about when messages arrive. The consumer is the only writer of its ledger here; several are in `Pipeline`.
- Relay.OutboxRelay.Run: without failures and without new events; failures and several relays are in `Outbox`.
- Relay.OutboxStore.PublishNext: one relay alone; SKIP LOCKED matters only in `Outbox`.
- Ledgers.LedgerStore.AppendBidIdempotentWithAntiSnipe: nothing runs beside the call; interleaving is in `Transactions`.
- Prices.PricesGrow: one consumer whose hook reads the committed auction; several are in `Origins`.
- Validation.BidValidator.Validate: a failing sink may or may not have taken the event, so rejection evidence can be duplicated or missing on error.
- Pipeline.CommitBeforeAck: one stream; consumers of other auctions and other clients appear as transactions that anybody may start. The hook is taken to read one committed state, not several.
- Progress.DeadlockExactly: the queue in which PostgreSQL lets waiters at a row is not modelled; a waiter may be overtaken.
- Wrap-around of the 64-bit sequence number and of the 32-bit extension count.
- Entries deleted from a stream, and auctions created or changed by hand while transactions run.
- Wall clocks, timers, blocking reads and cancellation, except as a step that stops.
- JSON encoding of event payloads and UUID parsing, which are a parameter.
- internal/engine/consumer.go, an earlier consumer that acknowledges without committing.
- internal/engine/service.go and internal/store/redis/pubsub.go, argument checks around one external call.
- The benchmark path through PostgreSQL sequences in internal/store/postgres/ledger.go, and `AppendBidRowLock`.
- Connection pools, roles, logging, environment variables and the command-line programs.
