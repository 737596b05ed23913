# The gateway's durable state machines, in Dafny

llmmaxxing is a single-process LLM gateway. What makes it trustworthy is a handful of state machines that have to survive
crashes, concurrency and changing policy. This project models them and proves what they are for; `dafny verify dfyconfig.toml`
checks everything.

- **Reservation ledger.** `LedgerModel` says what every live transition of an account does to its ledger, `LedgerReplay` what
  replaying its records does, and proves that the two agree (`ReplayRules` says which records replay and what each does);
  `LedgerLimits` proves the rolling caps, the monthly books and the slot count over every run. `LedgerRules` writes the rules
  of a reservation as cardinalities, sums and instants, and proves that it is answered by exactly those; `LedgerEffects` does
  the same for every other command. `AccountRuntime` is the object that updates the ledger in place, proved against those
  functions. `Fleet` is all accounts over one journal.
- **Attempt journal.** `Journal` models the directory of digest-chained segments, checkpoints and manifest, a power loss and
  recovery; `JournalMeaning` says which directories recover, whatever they hold. `JournalWriter` is the writer, whose ghost
  trace collects every directory at which the process could stop. `Recovery` puts the two together: what is rebuilt after a
  crash is a state that the live fleet was in. `Generations` goes on from there: any number of processes, each opening what a
  power loss left of the one before.
- **Lifecycle spool.** `Spool` and `SpoolWriter` do the same for the telemetry spool with its staged deletion of acknowledged
  segments; `SpoolMeaning` says which directories reopen, whatever they hold; `SpoolReopening` says when a reopening is
  durable; `SpoolBudget` is the accounting of slots and bytes and the event budget of each request.
- **Queue and authorization.** `Authorization` is the meet of capabilities, legs and ceilings, and `AuthorizationOrder`
  proves that it is the greatest value that allows no more than either side. `Queue`, `QueueRuns` and `QueueObject` are the
  weighted queue, its fairness over runs, and the object; `QueueTurns` says which request is served and how keys take turns.
- **Send cap.** `Budget` is one request's budget, `SendCap` the whole system of ledgers, budgets, admission steps and shadow
  requests, and `SendCapSteps` says of each step what it does. `SendCapHistory` proves the cap over everything a request ever
  dispatched, interrupted dispatches included, when no deadline outlives the retention of resolutions; `SendCapForgotten` is
  the run without that.
- **Activation.** `Activation` is the command log with dedupe and retention, the staged and active references and the deny
  marks; `ActivationRules` says what each command requires and leaves, and which denies are in force after any run;
  `ActivationState` is the object over database, pointer file and bundles.
- **Client keys.** `Keys` is the record-delta validator and the commands that have to satisfy it; `KeyEffects` says what each
  command leaves and what a suspension or revocation means for the rest of a key's life.
- **Two printers.** `Multipart`, `MultipartRoundTrip` and `MultipartLimit` parse and rewrite multipart bodies, and
  `MultipartMeaning` says what is sent on; `Canonical` and `CanonicalForm` are RFC 8785 canonical bytes with the set
  normalisation of bundles. `JsonReader` is a reader of JSON text that reads every rendering back, `CanonicalMeaning` says
  what sorting and normalising leave.

The transitions and the printers are each described twice. The modules that end in Rules, Effects, Turns, Meaning, Order,
Steps and Reader define what is meant over fields, lists and bytes without calling what they describe, and prove that it is
so.

SHA-256 is idealised as the value it covers, clocks, journal answers and interleavings are inputs, a method that holds a lock is
one step, and an identifier is its rank in string order.

## Findings

Each of these is a property that the code does not have for all inputs and settings, with the input and the exact condition.

- *A journal taken over after a process kill.* Recovery syncs the newest segment only when it truncates it
  (`src/llmmaxxing/gateway/journal.py:763-787`), so a complete unsynced tail can be lost after a later record was acknowledged, and
  the journal does not recover: `Journal.TailLostAfterKill`. `Journal.ReopenIsDurableIff` gives the condition.
- *The same in the spool* (`src/llmmaxxing/telemetry/writer.py:964-1022`): `SpoolReopening.LostTailCorrupts`, for every such
  directory, and `SpoolReopening.ReopeningIsDurableIff`.
- *Opening a spool that was closed cleanly.* A stop between creating the new segment and writing the manifest makes the next
  opening report corruption (`src/llmmaxxing/telemetry/writer.py:661-676`): `Spool.OpeningWindow`, an equivalence.
- *A replayed ledger may not fit its own bound*, because pruning is not replayed (`src/llmmaxxing/gateway/runtime_state.py:1098-1099`):
  `LedgerReplay.ReplayCanOutgrowTheBound` is a run, `LedgerReplay.ReplayedSnapshotRestoresIff` the condition.
- *The replayed month after an extended reset* (`src/llmmaxxing/gateway/runtime_state.py:1735-1738`):
  `LedgerReplay.ExtensionRestartsReplayedMonth`, with `LedgerReplay.ReservationMonthExact` and `LedgerReplay.ResolutionMonthExact`.
- *The send cap over everything ever dispatched* depends on a setting: it holds in every run of a process if and only if no
  deadline is further off than resolutions are retained (`SendCapForgotten.HistoryIsCappedIff`). The defaults meet that by far
  (retention 86,400,000 ms, `src/llmmaxxing/gateway/runtime_state.py:47`; deadlines of at most 9,000,000 ms,
  `src/llmmaxxing/core/models.py:42`), but nothing ties the two together. With a shorter retention
  `SendCapForgotten.OutlivedHistoryRepeats` is a run, for every retention: an interrupted dispatch is resolved
  (`src/llmmaxxing/gateway/scheduler.py:990-1016`), a shadow request prunes it (`src/llmmaxxing/gateway/scheduler.py:785-858`) before
  the queue looks again, and the same leg is used again under the same epochs.
- *Rewriting a body of a thousand parts without a fence* appends one more than parsing allows
  (`src/llmmaxxing/gateway/profiler.py:466-508`): `MultipartLimit.FullBodyOutgrowsTheLimit` for every such body,
  `MultipartLimit.ThousandFieldsAreRewrittenAndRefused` for bodies that are accepted and rewritten;
  `MultipartRoundTrip.RewriteRoundTrip` is the exact condition.
- *Key commands on records that no command produces.* Publication accepts every step that the validator accepts
  (`src/llmmaxxing/config/signing.py:87`), and the validator accepts records on which legal-looking commands are refused
  (`src/llmmaxxing/core/key_lifecycle.py:55-156`): a fading credential that has expired stops revocation at any time
  (`Keys.ExpiredCredentialStopsRevocation`), and an active credential that ends before the key stops rotation
  (`Keys.EarlyEndStopsRotation`). The exact conditions are `Keys.RevokedIff` and `Keys.RotatedIff`. A first record with a longer
  overlap than rotation grants stops changes of state and policy (`Keys.LongOverlapStopsChanges`); no later step introduces one.
- *A takeover is two transactions* (`src/llmmaxxing/gateway/activation.py:1403-1419`): the point between them is neither the state
  before nor the one after. It denies everything, and `ActivationState.TakeoverResumes` completes it.

## Model

| member | source | states |
|---|---|---|
| LedgerReplay.RecoveryRefinesLive | src/llmmaxxing/gateway/runtime_state.py:1710-1862 | For every run of commands with fresh attempt identifiers, restoring any snapshot and replaying the records written since gives the attempts, circuits, consumed probes, holds and recovery probe of the live ledger; starts and resolutions differ only by entries that pruning drops |
| LedgerReplay.StepReplays | src/llmmaxxing/gateway/runtime_state.py:1710-1862 | One live command and the replay of the record it appended, written as two separate pieces of code, keep the live and the replayed ledger in agreement |
| LedgerReplay.SnapshotRoundTrip | src/llmmaxxing/gateway/runtime_state.py:984-1220 | A snapshot restores exactly the ledger it was taken from if the resolutions fit the bound, and is refused otherwise |
| LedgerReplay.SoundStep | src/llmmaxxing/gateway/runtime_state.py:455-880 | Every command keeps a start entry for every attempt and only constructible circuit values |
| LedgerReplay.MonthRefinesLive | src/llmmaxxing/gateway/runtime_state.py:1735-1738 | While every record is charged against one reset instant, live and replayed month have the same charge and reset whenever they are read from now on |
| LedgerReplay.ResolutionMonthExact | src/llmmaxxing/gateway/runtime_state.py:862-867 | The exact condition under which a replayed resolution charges the month as the live one did: same reset, no refund, or nothing left to refund from |
| LedgerReplay.ReservationMonthExact | src/llmmaxxing/gateway/runtime_state.py:1735-1742 | From equal charges a replayed reservation charges the month as the live one did if and only if the resets are equal or nothing was charged |
| LedgerReplay.ExtensionRestartsReplayedMonth | src/llmmaxxing/gateway/runtime_state.py:444-453 | A run in which extending the reset instant leaves the live month charged twice and the replayed month once |
| LedgerReplay.ReplayedSnapshotRestoresIff | src/llmmaxxing/gateway/runtime_state.py:1098-1099 | A replayed ledger can be snapshotted and restored if and only if everything resolved before or in the log fits the resolution bound together |
| LedgerReplay.ReplayCanOutgrowTheBound | src/llmmaxxing/gateway/runtime_state.py:900-908 | A run after which the live ledger restores from its own snapshot and the ledger replayed from its records does not, because pruning is not replayed |
| LedgerReplay.RestartIsConservative | src/llmmaxxing/gateway/runtime_state.py:1874-1927 | After a restart every slot is still held, nothing is live and no circuit is half open, and restarting again changes nothing more |
| ReplayRules.ReservedReplays | src/llmmaxxing/gateway/runtime_state.py:1733-1774 | A replayed reservation is there field by field as recorded, with its start and its tokens, and another reset instant begins the month anew |
| ReplayRules.DispatchedReplays | src/llmmaxxing/gateway/runtime_state.py:1775-1790 | A dispatch record replays exactly onto its attempt, unstamped or stamped by that very record, and stamps nothing else |
| ReplayRules.ResolvedReplays | src/llmmaxxing/gateway/runtime_state.py:1791-1826 | A resolution record replays exactly onto an open attempt within its reservation, or as the same resolution again; it settles start, month, slot and ledger |
| ReplayRules.UncertainReplaysAs | src/llmmaxxing/gateway/runtime_state.py:1827-1830 | A mark replays exactly for a known attempt, and is empty once it is settled |
| ReplayRules.CircuitReplays | src/llmmaxxing/gateway/runtime_state.py:1831-1854 | A circuit record replays exactly if its value can be constructed; it replaces the value there was and frees that one's probe |
| ReplayRules.CircuitIs | src/llmmaxxing/gateway/runtime_state.py:122-166 | Which circuit values can be constructed: a closed one is blank, an open one waits for its retry, a half-open one has lent its probe |
| ReplayRules.CountReplays | src/llmmaxxing/gateway/runtime_state.py:1855-1856 | A count replays exactly while nothing is live, keeps the oldest attempts and holds the rest |
| ReplayRules.ProbesReplay | src/llmmaxxing/gateway/runtime_state.py:1857-1862 | Probe records always replay, and an available one gives one slot back |
| ReplayRules.ReplayPasses | src/llmmaxxing/gateway/runtime_state.py:1710-1862 | A log replays to a ledger exactly if there are ledgers on the way, each of which takes the next record to the one after it |
| Generations.EveryGenerationRecovers | src/llmmaxxing/gateway/runtime_state.py:1676-1927 | Over the journal directory and all accounts, through any number of processes, each of which opens what a power loss left of the one before, resumes, takes checkpoints and is cut off: whatever recovers next agrees, account by account, with what the last process held after a prefix of its commands that wrote every acknowledged record, whichever readable checkpoint it starts from and whichever process took it |
| Generations.CutOff | src/llmmaxxing/gateway/journal.py:733-825 | One process keeps the invariant behind that: from every readable checkpoint, and from none, recovery rebuilds the same ledgers up to what pruning has dropped |
| Generations.LinesTogether | src/llmmaxxing/gateway/runtime_state.py:1710-1862 | Replaying the same lines onto two fleets, of which one holds what the other has pruned, finds the same accounts and keeps them so |
| LedgerLimits.EveryRunIsLawful | src/llmmaxxing/gateway/runtime_state.py:455-633 | In every run of a fresh account under unchanged limits every rolling window of the whole history holds at most the rate and token limits, the month is charged at least what was granted and at most its limit, attempts and resolutions stay within the ledger bound, and the snapshot restores |
| LedgerLimits.LawfulStep | src/llmmaxxing/gateway/runtime_state.py:455-880 | Every command keeps that law |
| LedgerLimits.TokenRetryIsExact | src/llmmaxxing/gateway/runtime_state.py:928-934 | The retry instant of a token denial is ahead, the request fits at it and at no earlier instant, and the scan always has an answer |
| LedgerLimits.RateRetryIsExact | src/llmmaxxing/gateway/runtime_state.py:535-547 | The retry instant of a rate denial is the first at which a start leaves the window, and exactly the earliest starts leave there |
| LedgerLimits.PurgeKeepsWindows | src/llmmaxxing/gateway/runtime_state.py:918-926 | Purging starts never changes a later answer about a window of at most a day |
| LedgerLimits.GrantKeepsRate | src/llmmaxxing/gateway/runtime_state.py:526-541 | A grant that passed the rate check keeps every window of the history under the limit |
| LedgerLimits.GrantKeepsTokens | src/llmmaxxing/gateway/runtime_state.py:542-554 | A grant that passed the token check keeps every window of the history under the limit |
| LedgerLimits.RefundKeepsCaps | src/llmmaxxing/gateway/runtime_state.py:857-861 | A refund of an attempt only lowers what any window holds |
| LedgerLimits.ClampNeverFires | src/llmmaxxing/gateway/runtime_state.py:862-867 | The refund of a resolution never exceeds what the month was charged, so the clamp at zero has nothing to clamp |
| LedgerLimits.FinishCharges | src/llmmaxxing/gateway/runtime_state.py:825-880 | A resolution takes as much off the books as off the month, or nothing off the month |
| LedgerLimits.GrantWithinParallel | src/llmmaxxing/gateway/runtime_state.py:523-524 | A grant adds one to the active count and leaves it at most the local ceiling, at most the attested parallel quota if every quota is attested, and at most one otherwise |
| LedgerLimits.SlotsReturnOnlyOnEvidence | src/llmmaxxing/gateway/runtime_state.py:947-976 | A slot goes back only by a releasing resolution, an available probe or an authoritative count, each with a record; the first two return at most one and the count leaves exactly what it says |
| LedgerRules.ReservationFollowsRules | src/llmmaxxing/gateway/runtime_state.py:455-633 | A reservation is granted exactly if every rule, from the journal to the month, is met and the journal took the record; otherwise the answer is the reason and the retry instant of the first rule broken. The rules count live and held slots, starts and tokens in the window and unit sums over ledger fields |
| LedgerRules.ReservationLeaves | src/llmmaxxing/gateway/runtime_state.py:455-633 | A grant adds exactly one attempt, one start and one month charge, takes the probe tokens it used, and writes that record; a refusal leaves the ledger as purging, rolling and pruning left it |
| LedgerRules.ParallelExhaustedIff | src/llmmaxxing/gateway/runtime_state.py:523-524 | A request that meets the rules before it is refused for its slot exactly if the active count has reached the attested parallel quota or the local ceiling, or one where not everything is attested |
| LedgerEffects.DispatchStamps | src/llmmaxxing/gateway/runtime_state.py:800-817 | A dispatch succeeds exactly for an open attempt before its deadline whose record was taken, or one stamped before; it stamps that attempt and nothing else |
| LedgerEffects.FinishSettles | src/llmmaxxing/gateway/runtime_state.py:825-880 | A resolution succeeds exactly within the reservation of an open attempt, or as a repetition; it corrects the start, the month and the slot and adds the one resolution |
| LedgerEffects.SwapReplaces | src/llmmaxxing/gateway/runtime_state.py:659-690 | A circuit is replaced exactly if it is the expected one and its epoch does not go back; the probe of the one replaced may be used again |
| LedgerEffects.CountKeepsOldest | src/llmmaxxing/gateway/runtime_state.py:753-763 | An authoritative count succeeds exactly while nothing is live; it keeps the oldest attempts up to the count and holds the rest of it |
| LedgerEffects.ProbeStarts | src/llmmaxxing/gateway/runtime_state.py:765-780 | A recovery probe starts exactly while none runs, nothing is live and something is uncertain |
| LedgerEffects.ProbeEnding | src/llmmaxxing/gateway/runtime_state.py:782-794 | Ending the probe gives back one hold, or the oldest uncertain attempt, exactly if it was found available |
| LedgerEffects.MarkingMarks | src/llmmaxxing/gateway/runtime_state.py:1874-1890 | Exactly a live attempt is marked uncertain, and nothing else of it changes |
| LedgerEffects.RestartReopens | src/llmmaxxing/gateway/runtime_state.py:1890-1927 | A restart opens every half-open circuit again under the next epoch with one step more of backoff, leaves the others, and leaves nothing live |
| LedgerEffects.PublicationExtends | src/llmmaxxing/gateway/runtime_state.py:444-453 | A publication moves the reset instant forward only, after rolling a month that is over |
| LedgerEffects.ReadingPurges | src/llmmaxxing/gateway/runtime_state.py:733-751 | Reading the capacity drops exactly the starts older than a day and rolls the month |
| LedgerEffects.FiguresAre | src/llmmaxxing/gateway/runtime_state.py:882-914 | The figures reported are the counted starts and tokens of the windows and the uncertain slots |
| LedgerEffects.NewLedgerIsEmpty | src/llmmaxxing/gateway/runtime_state.py:372-401 | A new ledger holds nothing, its account circuit is closed, and its month ends at the account's next reset |
| LedgerEffects.StepTakes | src/llmmaxxing/gateway/runtime_state.py:455-880 | A run takes each command to the operation it names and records exactly what that appended |
| Accounts.AccountRuntime.constructor | src/llmmaxxing/gateway/runtime_state.py:372-401 | A new ledger of the account |
| Accounts.AccountRuntime.Reserve | src/llmmaxxing/gateway/runtime_state.py:455-633 | Updates the ledger in place and answers by the rules of LedgerRules, written over the fields: granted exactly if all are met, otherwise the first one broken with its retry instant |
| Accounts.AccountRuntime.Dispatched | src/llmmaxxing/gateway/runtime_state.py:800-817 | Stamps a live attempt once, durably, before its deadline |
| Accounts.AccountRuntime.FinishAttempt | src/llmmaxxing/gateway/runtime_state.py:825-880 | Settles start, month, attempt and resolution together; a repeated resolution is answered from the ledger |
| Accounts.AccountRuntime.Swap | src/llmmaxxing/gateway/runtime_state.py:659-690 | Compares and swaps a circuit value, never back in epochs, and forgets the probe of the one replaced |
| Accounts.AccountRuntime.SetAuthoritativeCount | src/llmmaxxing/gateway/runtime_state.py:753-763 | Keeps the oldest attempts up to the count and holds the rest of it |
| Accounts.AccountRuntime.BeginRecoveryProbe | src/llmmaxxing/gateway/runtime_state.py:765-780 | Starts a probe only when nothing is live and something is uncertain |
| Accounts.AccountRuntime.FinishRecoveryProbe | src/llmmaxxing/gateway/runtime_state.py:782-794 | Ends the probe; an available one gives back one slot |
| Accounts.AccountRuntime.UpdateAccount | src/llmmaxxing/gateway/runtime_state.py:444-453 | Publishes an account; a later reset instant extends the month in place |
| Accounts.AccountRuntime.Capacity | src/llmmaxxing/gateway/runtime_state.py:733-751 | Reads the capacity after purging and rolling |
| Accounts.AccountRuntime.RetryAt | src/llmmaxxing/gateway/runtime_state.py:928-934 | The loop that walks the starts computes the retry instant of the specification |
| Accounts.AccountRuntime.ApplyRecord | src/llmmaxxing/gateway/runtime_state.py:1710-1862 | Replays one record in place, or raises exactly where the replay function does |
| Accounts.AccountRuntime.ReplayAll | src/llmmaxxing/gateway/runtime_state.py:1710-1862 | Replays a log in place |
| Accounts.AccountRuntime.MarkLiveUncertain | src/llmmaxxing/gateway/runtime_state.py:1874-1890 | Marks exactly the live attempts uncertain, one record each, and the log replays to the result |
| Accounts.AccountRuntime.MarkRecovered | src/llmmaxxing/gateway/runtime_state.py:1874-1927 | The whole restart: every attempt marked, every half-open circuit reopened and its token freed and no other, the probe dropped, the clock moved exactly if a circuit was reopened; the log replays to the new ledger |
| Fleet.FleetRecoveryRefinesLive | src/llmmaxxing/gateway/runtime_state.py:1676-1872 | Restoring a checkpoint of all accounts and replaying every line since, routed by who knows the attempt, agrees with the live ledgers account by account |
| Fleet.ActReplays | src/llmmaxxing/gateway/runtime_state.py:1710-1872 | One action on one account and the replay of its line keep all accounts in agreement |
| Fleet.RouteFinds | src/llmmaxxing/gateway/runtime_state.py:796-798 | The account that knows an attempt is unique, and routing a record without an account finds it |
| Fleet.ImageRoundTrip | src/llmmaxxing/gateway/runtime_state.py:1639-1708 | A checkpoint of all accounts restores exactly the ledgers it was taken from |
| Journal.RecoverIntact | src/llmmaxxing/gateway/journal.py:733-825 | Recovery of an intact directory gives exactly the records after the newest readable checkpoint and repairs a torn tail; it fails if and only if there are more of them than the replay bound |
| Journal.HealthyIsLinked | src/llmmaxxing/gateway/journal.py:733-825 | Whatever the directory holds, a successful recovery returns consecutive chained records within the bound that reach at least the manifest |
| Journal.HeadFixesRecords | src/llmmaxxing/gateway/journal.py:860-892 | Recovered records whose head is the head of a history are that history's records |
| Journal.ChainInjective | src/llmmaxxing/gateway/journal.py:860-892 | The last digest fixes the whole history |
| Journal.PowerLossKeepsIntact | src/llmmaxxing/gateway/journal.py:733-825 | A power loss leaves an intact directory with a prefix of the history that has every acknowledged record |
| Journal.RecoveryIsDurable | src/llmmaxxing/gateway/journal.py:733-825 | After any power loss recovery returns a contiguous piece of the history that ends at or after the last acknowledged record, or that piece exceeds the replay bound |
| Journal.DeleteKeeps | src/llmmaxxing/gateway/journal.py:1110-1121 | Deleting the oldest segment loses no record above the oldest readable checkpoint |
| Journal.ReopenIsDurableIff | src/llmmaxxing/gateway/journal.py:763-787 | After opening without truncation and appending one record, every power loss leaves that record recoverable if and only if the tail taken over had been synced |
| Journal.TailLostAfterKill | src/llmmaxxing/gateway/journal.py:763-787 | The input: a process kill leaves a complete unsynced record, the next append is acknowledged, a power loss takes the old tail, and the journal does not recover |
| Journal.KillThenPowerLoss | src/llmmaxxing/gateway/journal.py:763-787 | The directories of that input are intact and follow by a power loss |
| JournalMeaning.RecoverIff | src/llmmaxxing/gateway/journal.py:733-825 | For any directory: recovery succeeds exactly if a checkpoint reads or there is none, only the newest segment is torn, the lines beyond the newest readable checkpoint follow it unaltered within the bound, and they reach the manifest; it returns those lines and mends the torn end and nothing else |
| JournalMeaning.InsertIs | src/llmmaxxing/gateway/journal.py:1064-1108 | A published checkpoint replaces the one of its name and leaves every other |
| JournalWriter.EveryInstantRecovers | src/llmmaxxing/gateway/journal.py:1001-1121 | At every instant at which the writer could stop, after every power loss, recovery returns a contiguous piece of the history from an offered checkpoint to at least the last acknowledged record |
| JournalWriter.RecoverFrom | src/llmmaxxing/gateway/journal.py:733-825 | The loops over checkpoints and segments compute the recovery function |
| JournalWriter.AttemptJournal.Create | src/llmmaxxing/gateway/journal.py:491-493 | A new, quiet journal |
| JournalWriter.AttemptJournal.Reopen | src/llmmaxxing/gateway/journal.py:733-825 | Opens any intact directory with its whole history, healthy if and only if it fits the replay bound; ready to write durably when the tail it took over was torn or synced |
| JournalWriter.AttemptJournal.EnsureSegment | src/llmmaxxing/gateway/journal.py:1042-1052 | Keeps a segment that has room, and otherwise starts exactly one new empty one at the next sequence; no record is lost or reordered |
| JournalWriter.AttemptJournal.AppendBatch | src/llmmaxxing/gateway/journal.py:1001-1040 | When it returns, exactly the batch has been appended to the history, synced, named by the manifest and acknowledged |
| JournalWriter.AttemptJournal.Compact | src/llmmaxxing/gateway/journal.py:1110-1121 | Deletes, after closing the open segment, exactly the oldest segments that end at or below the older retained checkpoint |
| JournalWriter.AttemptJournal.PruneCheckpoints | src/llmmaxxing/gateway/journal.py:1064-1108 | Leaves exactly the newest two checkpoints, or all if there are fewer |
| JournalWriter.AttemptJournal.WriteCheckpoint | src/llmmaxxing/gateway/journal.py:1064-1108 | Afterwards the readable checkpoints are the newest two of those before and the new one, and the newest is of the whole history |
| Recovery.CrashRecoveryIsLive | src/llmmaxxing/gateway/runtime_state.py:1676-1872 | At any instant of the journal's run and after any power loss, the ledgers rebuilt from a recovery agree with the live fleet after a prefix of its actions that wrote every acknowledged record |
| Recovery.PieceIsLive | src/llmmaxxing/gateway/runtime_state.py:1676-1708 | Any recovered piece of the history rebuilds the live fleet at some point of its run |
| Recovery.PrefixWithLines | src/llmmaxxing/gateway/runtime_state.py:1710-1862 | Every number of lines is reached by some prefix of the run |
| Spool.ReopenIntact | src/llmmaxxing/telemetry/writer.py:601-676 | Reopening an intact directory succeeds with the whole history and the cursor, and replay gives exactly the records above the cursor |
| Spool.PowerLossKeepsIntact | src/llmmaxxing/telemetry/writer.py:964-1022 | A power loss leaves an intact directory with a prefix that has every synced record and the cursor |
| Spool.FilesReplay | src/llmmaxxing/telemetry/writer.py:927-962 | Replay returns exactly the records above the cursor, in order, each checked against the chain |
| Spool.RecordFile | src/llmmaxxing/telemetry/writer.py:585-599 | Every record above the anchor lies in the file of its segment |
| Spool.StagingKeepsLive | src/llmmaxxing/telemetry/writer.py:1160-1172 | Renaming a listed file to or from its staged name leaves the same files live |
| Spool.UnlinkKeepsLive | src/llmmaxxing/telemetry/writer.py:1160-1172 | Unlinking a staged file that is no longer listed leaves the same files live |
| Spool.DurableIff | src/llmmaxxing/telemetry/writer.py:585-599 | The cursors found durable are exactly the anchor and the records above it |
| Spool.NewestFacts | src/llmmaxxing/telemetry/writer.py:532-582 | The newest deleted file ends where the chain says and below the cursor, so it can become the anchor |
| Spool.OpeningWindow | src/llmmaxxing/telemetry/writer.py:661-676 | Stopped between creating the new segment and writing the manifest, reopening succeeds if and only if the spool had not been closed cleanly |
| SpoolMeaning.ReopenIff | src/llmmaxxing/telemetry/writer.py:601-676 | For any directory: reopening succeeds exactly if the files that count are all the listed ones, no other after a clean close, the chain runs through them from the anchor, torn at most at an end that was not closed, and the cursor is there; it cuts a torn end and nothing else |
| SpoolMeaning.ReopeningLeaves | src/llmmaxxing/telemetry/writer.py:661-676 | Reopening adds one file under the next index, empty after a clean close and otherwise with one sealed record for the gap, synced; the manifest lists every file, cursor and anchor stay |
| SpoolMeaning.ReplayIff | src/llmmaxxing/telemetry/writer.py:927-962 | For any files: replay fails exactly where the chain breaks and otherwise gives every record above the cursor, in order |
| SpoolMeaning.KeptIs | src/llmmaxxing/telemetry/writer.py:532-582 | Acknowledging drops, in order, exactly the files before the last one that hold a record and end below the cursor |
| SpoolWriter.EveryInstantReopens | src/llmmaxxing/telemetry/writer.py:532-582 | At every instant of the trace, acknowledgement included, and after any power loss, reopening succeeds with every flushed record and replay yields exactly the records above the durable cursor |
| SpoolWriter.AckAllowed | src/llmmaxxing/telemetry/writer.py:585-599 | What the writer checks from memory is whether the cursor names a durable record |
| SpoolWriter.CutKeeps | src/llmmaxxing/telemetry/writer.py:553-582 | The manifest that drops the deleted files keeps the directory intact from the new anchor on |
| SpoolWriter.LifecycleSpool.Create | src/llmmaxxing/telemetry/writer.py:601-609 | A new spool with its first segment listed |
| SpoolWriter.LifecycleSpool.Reopen | src/llmmaxxing/telemetry/writer.py:601-676 | From a last file that is torn or synced: exactly the directory and history that reopening leaves, every instant on the way recoverable |
| SpoolWriter.LifecycleSpool.Repair | src/llmmaxxing/telemetry/writer.py:1160-1172 | Finishes or undoes staged deletions and keeps the live files |
| SpoolWriter.LifecycleSpool.Load | src/llmmaxxing/telemetry/writer.py:964-1022 | Walks the chain, truncates an incomplete record and remembers every segment |
| SpoolWriter.LifecycleSpool.StartSegment | src/llmmaxxing/telemetry/writer.py:661-676 | Starts a segment and records the gap unless the close was clean |
| SpoolWriter.LifecycleSpool.Append | src/llmmaxxing/telemetry/writer.py:794-855 | Appends one record: to the last file, or, if that holds a record and is full or old, after syncing and listing it, to exactly one new file under the next index |
| SpoolWriter.LifecycleSpool.Sync | src/llmmaxxing/telemetry/writer.py:898-925 | Syncs the current segment and lists every file |
| SpoolWriter.LifecycleSpool.Flush | src/llmmaxxing/telemetry/writer.py:476-488 | Everything appended before is durable |
| SpoolWriter.LifecycleSpool.Close | src/llmmaxxing/telemetry/writer.py:494-513 | Leaves a clean, fully synced directory |
| SpoolWriter.LifecycleSpool.Ack | src/llmmaxxing/telemetry/writer.py:532-582 | Refuses a cursor that goes back or is not durable; otherwise keeps exactly the files that SpoolMeaning.KeptIs describes, in steps each of which is recoverable |
| SpoolReopening.ReopeningIsDurableIff | src/llmmaxxing/telemetry/writer.py:964-1022 | After reopening and publishing the manifest every power loss reopens to the same history if and only if the last live file had been synced or was truncated |
| SpoolReopening.LostTailCorrupts | src/llmmaxxing/telemetry/writer.py:661-676 | Where it was not, and a gap record was written, a power loss that takes the old tail makes the spool corrupt |
| SpoolBudget.SpoolSlots.TryReserve | src/llmmaxxing/telemetry/writer.py:376-391 | Reserves slots all or nothing, exactly when status, bytes and queue allow it; outstanding slots stay the sum of what reservations have left and protected bytes within the cap |
| SpoolBudget.SpoolSlots.Submit | src/llmmaxxing/telemetry/writer.py:393-443 | Spends one slot; a reserved event never finds the queue full; outstanding slots stay the sum of what reservations have left and protected bytes within the cap |
| SpoolBudget.SpoolSlots.ReleaseUnused | src/llmmaxxing/telemetry/writer.py:450-464 | Gives back unused slots, at most what is left; outstanding slots stay the sum of what reservations have left and protected bytes within the cap |
| SpoolBudget.SpoolSlots.PutControl | src/llmmaxxing/telemetry/writer.py:476-488 | The one control command always has room beside the events; outstanding slots stay the sum of what reservations have left and protected bytes within the cap |
| SpoolBudget.SpoolSlots.Take | src/llmmaxxing/telemetry/writer.py:678-749 | The writer takes the oldest command; outstanding slots stay the sum of what reservations have left and protected bytes within the cap |
| SpoolBudget.SpoolSlots.Append | src/llmmaxxing/telemetry/writer.py:751-769 | A slot turns into the bytes of its event, never more than a slot; outstanding slots stay the sum of what reservations have left and protected bytes within the cap |
| SpoolBudget.Lifecycle.ProfileAccepted | src/llmmaxxing/gateway/telemetry.py:108-124 | Once, first; the slots left stay exactly what the remaining events need, and other requests keep theirs |
| SpoolBudget.Lifecycle.Queued | src/llmmaxxing/gateway/telemetry.py:126-143 | Once, after the profile; the slots left stay exactly what the remaining events need, and other requests keep theirs |
| SpoolBudget.Lifecycle.AttemptStarted | src/llmmaxxing/gateway/telemetry.py:145-201 | Refused for order or number alone, never for a missing slot; the slots left stay exactly what the remaining events need, and other requests keep theirs |
| SpoolBudget.Lifecycle.AttemptFinished | src/llmmaxxing/gateway/telemetry.py:227-294 | Once for each attempt; the slots left stay exactly what the remaining events need, and other requests keep theirs |
| SpoolBudget.Lifecycle.Finished | src/llmmaxxing/gateway/telemetry.py:296-323 | The terminal event, refused only by a closed spool; the slots left stay exactly what the remaining events need, and other requests keep theirs |
| SpoolBudget.Lifecycle.Release | src/llmmaxxing/gateway/telemetry.py:325-339 | Records a terminal event if there was none and gives everything back; the slots left stay exactly what the remaining events need, and other requests keep theirs |
| SpoolBudget.Admit | src/llmmaxxing/gateway/telemetry.py:433-481 | Admits a request with its whole budget reserved and its first event emitted, or leaves nothing reserved; other requests are untouched |
| SpoolBudget.OthersStayValid | src/llmmaxxing/gateway/telemetry.py:433-481 | A step of one request leaves every other one with exactly the slots it needs, its terminal event included |
| Queue.ProposalServes | src/llmmaxxing/gateway/scheduler.py:263-338 | A proposal serves the oldest eligible request of its key in its class and tier; there is none exactly when nothing eligible waits |
| QueueTurns.ProposalSelects | src/llmmaxxing/gateway/scheduler.py:263-338 | There is no proposal exactly if nothing eligible waits; otherwise it serves the top tier, or the oldest lower request once the bound is reached, the class and key at the cursors or what stands in for them, and that key's oldest request, and it uses up one of the class and one of the key |
| QueueTurns.TurnTaken | src/llmmaxxing/gateway/scheduler.py:301-338 | Over any run, a key that is granted is granted in a row, while it waits and its least weight stays, exactly its weight if its deficit was spent and otherwise what remains of it, at most eight weights; the next grant of that class in that tier goes to the key that follows in the order of oldest sequences |
| QueueTurns.SpentKeyGetsItsWeight | src/llmmaxxing/gateway/scheduler.py:301-338 | In every queue that can be reached a spent key gets exactly its weight in a row, and then its follower is served |
| QueueTurns.GrantTakes | src/llmmaxxing/gateway/scheduler.py:340-350 | A grant removes exactly the selected request and takes over the selection's deficits and cursors |
| QueueTurns.OperationsAre | src/llmmaxxing/gateway/scheduler.py:144-155 | A request waits once, in order of arrival; cancelling removes it alone; a selection is taken exactly in the version and with the entry it was made from |
| QueueTurns.ContractionIs | src/llmmaxxing/gateway/scheduler.py:161-207 | A contraction is accepted exactly if it is one, replaces the given parts of its entry alone, and caps the deficit of its key at eight of the new weight if the tier stays and the weight falls |
| QueueTurns.ServedIsGranted | src/llmmaxxing/gateway/scheduler.py:263-338 | The tier and class that the fairness theorems count are those of the request proposed |
| QueueRuns.FairAfter | src/llmmaxxing/gateway/scheduler.py:285-350 | Every operation keeps the flexible deficit 0, the scarce one 0 or 1 and 0 while the cursor is on flexible, key deficits in 0 to 63 and the aging count within its bound |
| QueueRuns.FairRun | src/llmmaxxing/gateway/scheduler.py:144-350 | So does every run |
| QueueRuns.EveryQueueShares | src/llmmaxxing/gateway/scheduler.py:144-350 | From an empty queue, after anything that was done to it: the share, the aging bound and the commit condition below hold of what follows |
| QueueRuns.ClassShare | src/llmmaxxing/gateway/scheduler.py:285-300 | Over any stretch in which both classes of a tier wait whenever it is served, scarce grants minus twice the flexible ones stay within -2 and 2 |
| QueueRuns.AgingBound | src/llmmaxxing/gateway/scheduler.py:269-283 | With enqueues, cancellations and contractions interleaved, at most the bound of consecutive grants pass over an eligible lower tier |
| QueueRuns.AgingForces | src/llmmaxxing/gateway/scheduler.py:269-283 | Once the bound is reached the next grant with an eligible lower tier serves the tier of its oldest entry, and the count restarts |
| QueueRuns.CommitIffUnchanged | src/llmmaxxing/gateway/scheduler.py:340-350 | A selection commits after a run if and only if the run changed nothing |
| QueueRuns.VersionGuards | src/llmmaxxing/gateway/scheduler.py:144-207 | An unchanged version means an unchanged queue |
| QueueObject.WDRRQueue.Enqueue | src/llmmaxxing/gateway/scheduler.py:144-149 | Adds a request once, with the next sequence |
| QueueObject.WDRRQueue.Cancel | src/llmmaxxing/gateway/scheduler.py:151-155 | Removes a request and says whether it waited |
| QueueObject.WDRRQueue.Contract | src/llmmaxxing/gateway/scheduler.py:161-207 | Accepts exactly a contraction of tier, weight and legs, changes its entry and its key's deficit cap as said of ContractionIs, and changes nothing otherwise |
| QueueObject.WDRRQueue.Propose | src/llmmaxxing/gateway/scheduler.py:263-338 | Nothing exactly if nothing eligible waits, and otherwise the tier, class, key and request that the waiting requests and the cursors single out, with what the grant uses up |
| QueueObject.WDRRQueue.Commit | src/llmmaxxing/gateway/scheduler.py:340-350 | Removes the request and takes the fairness state over, only in the version it was proposed in |
| QueueObject.OldestSequences | src/llmmaxxing/gateway/scheduler.py:301-326 | The loop over the queue finds each key's oldest eligible sequence |
| Authorization.CapabilitiesAssociative | src/llmmaxxing/core/models.py:187-204 | The meet of capabilities is associative, with nothing in common absorbing |
| Authorization.CapabilitiesIdempotent | src/llmmaxxing/core/models.py:187-204 | The meet of capabilities with themselves is themselves |
| Authorization.LegAssociative | src/llmmaxxing/core/models.py:230-248 | The meet of legs is associative |
| Authorization.LegIdempotent | src/llmmaxxing/core/models.py:230-248 | The meet of a leg with itself is itself |
| Authorization.CeilingIdempotent | src/llmmaxxing/core/models.py:468-497 | The meet of a ceiling with itself is itself |
| Authorization.ContractsTransitive | src/llmmaxxing/gateway/scheduler.py:157-160 | Contraction is transitive |
| Authorization.ContractsAntisymmetric | src/llmmaxxing/gateway/scheduler.py:157-160 | Contraction is antisymmetric |
| Authorization.MeetIsLargest | src/llmmaxxing/core/models.py:230-248 | The meet of two legs contracts the first and is the largest leg below both |
| Authorization.ReauthorizeWithin | src/llmmaxxing/gateway/scheduler.py:612-643 | Re-authorization against any policy stays within the queue entry |
| Authorization.PreviewAccepted | src/llmmaxxing/gateway/scheduler.py:651-668 | A contraction that a preview asks for is accepted, and entry and ceiling then agree |
| Authorization.QueueAlwaysAccepts | src/llmmaxxing/gateway/scheduler.py:612-668 | Under any sequence of policies the queue accepts every contraction it is asked for, and nothing expands what was admitted |
| Authorization.AdmittedNeverExpands | src/llmmaxxing/gateway/scheduler.py:612-668 | From admission with a valid ceiling on, no sequence of policies expands the request, and the queue accepts every contraction |
| AuthorizationOrder.CapabilitiesGreatest | src/llmmaxxing/core/models.py:187-204 | The meet of capabilities is absent exactly without a shared endpoint or modality, and otherwise the greatest capabilities that allow no more than either side, field by field |
| AuthorizationOrder.LegGreatest | src/llmmaxxing/core/models.py:230-248 | The meet of legs is absent exactly across identities or without a shared trigger, endpoint or modality, and otherwise the greatest leg below both |
| AuthorizationOrder.ContractsIff | src/llmmaxxing/gateway/scheduler.py:157-160 | A leg may replace another exactly if it is the same leg, allows no more, and lists what it keeps in the same order |
| AuthorizationOrder.CeilingMeets | src/llmmaxxing/core/models.py:468-497 | The meet of ceilings is refused across principals and otherwise has the stricter bound in every field and exactly the meets of legs on both sides |
| AuthorizationOrder.AcceptsIff | src/llmmaxxing/gateway/scheduler.py:161-207 | The queue accepts a contraction exactly if the tier does not rise, the weight does not grow, a leg stays, none is named twice, and every leg may replace the one of its identity |
| AuthorizationOrder.ReauthorizationIs | src/llmmaxxing/gateway/scheduler.py:612-668 | Re-authorization fails exactly without a policy, for another principal or without a leg left; a preview brings the entry to the ceiling |
| SendCap.EveryRunIsCapped | src/llmmaxxing/gateway/scheduler.py:928-989 | In every run of admissions, looks, choices, reservations, dispatches (recorded or interrupted) and other ledger commands, the sends of a request that its budget or a ledger remembers are at most three, never twice at the same leg and epochs, and repeat a generation only for capacity on unused probes |
| SendCap.DurableDispatchesAreCapped | src/llmmaxxing/gateway/runtime_state.py:1361-1401 | The dispatches of a request that attempts and resolutions show can be ordered so that they satisfy that cap |
| SendCap.AtMostThreeDispatches | src/llmmaxxing/gateway/runtime_state.py:1361-1401 | There are at most three of them, no two at the same leg and epochs |
| SendCap.RebuiltHoldsWhatIsShown | src/llmmaxxing/gateway/routing.py:252-285 | A budget rebuilt from the ledgers holds exactly what they show; it equals the request's refreshed budget, and permits the same, if and only if they still show all that the budget knows |
| SendCap.FreshRunsAreCapped | src/llmmaxxing/gateway/scheduler.py:928-989 | From a fresh start, after any run, distinct dispatches of one request that the ledgers show are at most three, no two at the same leg and epochs |
| SendCapHistory.HistoryIsCapped | src/llmmaxxing/gateway/scheduler.py:928-1016 | Everything ever dispatched for a request, interrupted, resolved and pruned dispatches included, satisfies the cap in every run of a process in which the clock does not go back and no deadline is further off than resolutions are retained |
| SendCapHistory.FirmKept | src/llmmaxxing/gateway/runtime_state.py:900-908 | Before the deadline of its request no command of a running process takes a dispatch out of the ledger |
| SendCapHistory.LateIsRefused | src/llmmaxxing/gateway/runtime_state.py:800-817 | From the deadline on nothing is dispatched for the request |
| SendCapForgotten.OutlivedHistoryRepeats | src/llmmaxxing/gateway/scheduler.py:785-858 | For every retention and any longer lifetime, a run from a fresh account in which a shadow's reservation prunes an interrupted dispatch and the request is sent to the same place again |
| SendCapForgotten.HistoryIsCappedIff | src/llmmaxxing/gateway/runtime_state.py:1290-1295 | The whole history of every request is capped in every run if and only if no deadline can be further off than resolutions are retained |
| SendCap.OtherShowsNothingNew | src/llmmaxxing/gateway/runtime_state.py:825-880 | No command but a dispatch makes a new dispatch visible |
| SendCap.DispatchShows | src/llmmaxxing/gateway/runtime_state.py:800-817 | A durable dispatch adds exactly itself, with the leg, epochs and probes that were chosen |
| SendCap.ReserveShowsNothingNew | src/llmmaxxing/gateway/runtime_state.py:455-633 | A reservation shows nothing, and its attempt carries the chosen leg, epochs and probes |
| SendCapSteps.GoLeads | src/llmmaxxing/gateway/scheduler.py:928-1016 | Every step of the system, from admission and looks to reservation, dispatch and interruption, does to budgets, ledgers and the send in hand what is written out for it over their fields |
| SendCapSteps.AllowedIs | src/llmmaxxing/gateway/routing.py:306-330 | A send is allowed exactly before a response, below three sends, never twice at one leg and epochs, and to a generation used before only after a capacity failure and on unused probes |
| SendCapSteps.RefreshIs | src/llmmaxxing/gateway/routing.py:261-285 | Refreshing adds exactly the request's unknown dispatches and sorts by instant and identifier |
| SendCapSteps.ResponseClosesSends | src/llmmaxxing/gateway/routing.py:294-296 | Once a response has started and no send is in hand, nothing more is dispatched for the request in any run that does not rebuild its budget |
| Budget.PermittedIffCapped | src/llmmaxxing/gateway/routing.py:306-330 | A send is refused exactly where the cap over the sends made would break, or a response has started |
| Budget.AttemptBudget.SyncRuntime | src/llmmaxxing/gateway/routing.py:261-285 | Appends the request's unknown dispatches and sorts; a view of what was sent already changes nothing but the order |
| Budget.AttemptBudget.RecordSend | src/llmmaxxing/gateway/routing.py:332-344 | Records a send exactly when the cap permits it |
| Keys.HistoryDescends | src/llmmaxxing/core/key_lifecycle.py:55-156 | Along every history of accepted records a generation stands for one credential for ever, windows only shrink, statuses never move back, and a terminal record never changes |
| Keys.CommandsAreAccepted | src/llmmaxxing/control/keys.py:147-360 | For every record that can be constructed, a command succeeds if and only if its source state, clock, arguments and the credentials' windows and statuses, all written out, allow it; what it produces may follow |
| Keys.RevokedIff | src/llmmaxxing/control/keys.py:268-280 | Revoking a key that is not terminal succeeds if and only if every credential has begun and none has expired by itself |
| Keys.RotatedIff | src/llmmaxxing/control/keys.py:282-337 | A rotation with a permitted overlap succeeds if and only if the instant at which the active credential is to end lies in its window |
| Keys.ExpiredCredentialStopsRevocation | src/llmmaxxing/core/key_lifecycle.py:55-80 | A record that the validator lets follow one made by commands, and that can never be revoked |
| Keys.EarlyEndStopsRotation | src/llmmaxxing/core/key_lifecycle.py:75-76 | A record that the validator lets follow, and that cannot be rotated once its active credential has ended |
| Keys.LongOverlapStopsChanges | src/llmmaxxing/core/key_lifecycle.py:147-156 | A constructible record with a long overlap, on which no change of state or policy is accepted |
| Keys.OverlappingIsReached | src/llmmaxxing/control/keys.py:282-337 | The record before those two witnesses is reached by commands |
| Keys.OverlapsStayShort | src/llmmaxxing/core/key_lifecycle.py:147-156 | Whatever record is accepted after a live one has no overlap longer than rotation grants |
| Keys.GoodNeedsNoMore | src/llmmaxxing/control/keys.py:147-360 | On records reached by commands, state, clock and arguments alone decide whether a command succeeds |
| Keys.LifeIsHistory | src/llmmaxxing/control/keys.py:147-360 | From an issued key every sequence of commands at any times gives a history that the validator accepts, of records that commands can reach |
| Keys.IssuedIsGood | src/llmmaxxing/control/keys.py:102-137 | A key is issued exactly for a lifetime within the maximum, and starts such a history |
| KeyEffects.CommandYields | src/llmmaxxing/control/keys.py:147-360 | What an accepted command leaves, field by field: the state of the source's table, the credentials ended, retired or added, the policy, the windows and the counters |
| KeyEffects.StateMoves | src/llmmaxxing/core/state_machines.py:39-63 | The state after an accepted command, and the only commands that lead to it |
| KeyEffects.SuspensionHolds | src/llmmaxxing/control/keys.py:192-211 | After an accepted suspension no record of the key's life is enabled until an accepted resumption |
| KeyEffects.RevocationHolds | src/llmmaxxing/control/keys.py:268-280 | After revocation the record never changes again and none of its credentials is active or retiring |
| KeyEffects.IssuedIs | src/llmmaxxing/control/keys.py:102-137 | A key is issued exactly for a positive lifetime of at most a year, with one active credential of generation one and the given fields |
| KeyEffects.ConstructibleIs | src/llmmaxxing/core/models.py:327-425 | Which key records can be constructed, written out over lifetime, high-water marks, generations, windows, statuses and states |
| KeyEffects.MayFollowIs | src/llmmaxxing/core/key_lifecycle.py:55-156 | The validator written out field by field: a terminal record only repeats, and otherwise what may change of credentials, windows, counters and policy, and how |
| Multipart.ParseBody | src/llmmaxxing/gateway/profiler.py:358-404 | The loop over the segments computes the parse function |
| Multipart.RewriteBody | src/llmmaxxing/gateway/profiler.py:466-508 | The loops over parts and output compute the rewrite function |
| MultipartRoundTrip.PrintParse | src/llmmaxxing/gateway/profiler.py:358-404 | Printing and parsing undo each other exactly for at most a thousand distinctly named parts, each readable by itself and free of the delimiter |
| MultipartRoundTrip.RewriteRoundTrip | src/llmmaxxing/gateway/profiler.py:466-508 | Parsing the rewritten body gives exactly the edited parts (model replaced, fence replaced or appended once, reserved names dropped, all else as it was) if and only if everything injected can be carried |
| MultipartLimit.FullBodyOutgrowsTheLimit | src/llmmaxxing/gateway/profiler.py:466-508 | Rewriting any parsed body of a thousand parts that has no fence and loses no part gives a body that is refused for its number of parts |
| MultipartLimit.ThousandFieldsAreRewrittenAndRefused | src/llmmaxxing/gateway/profiler.py:466-508 | A body of a thousand fields, the model and the file among them, is parsed and rewritten within the size limit, and what is sent on is refused, for every boundary and fence |
| MultipartMeaning.RewriteSends | src/llmmaxxing/gateway/profiler.py:466-508 | What is sent on reads back as the parts that stay, in their order and with their contents, the model under its alias, and one fence; no other reserved field is among them |
| MultipartMeaning.RewriteRefuses | src/llmmaxxing/gateway/profiler.py:466-508 | A rewrite is refused for what its body is refused for, or because the edited parts print to more than 32 MiB |
| MultipartMeaning.ReservedAreDropped | src/llmmaxxing/gateway/profiler.py:466-508 | No part of the rewritten list has a reserved name other than the model and the fence, and the unreserved parts come back unchanged and in order |
| MultipartMeaning.EditedKeeps | src/llmmaxxing/gateway/profiler.py:475-500 | The rewritten list is the parts that stay, in order, each with its header and with its content or what replaces it, and the fence with its exact header at the end if none was there |
| MultipartMeaning.ParseIs | src/llmmaxxing/gateway/profiler.py:358-404 | For any body: cut at the delimiters from the left it has to begin with one, close with two dashes and at most a line break, and have one to a thousand parts; then it is those parts, or the reason of the first one refused, each judged by its line breaks, first blank line, header, name, length and text |
| MultipartMeaning.ParsedIsPrinted | src/llmmaxxing/gateway/profiler.py:358-404 | A body is read only if it is the print of the parts it is read as, up to its last line break |
| MultipartMeaning.HeaderReads | src/llmmaxxing/gateway/profiler.py:358-404 | The name read is the leftmost quoted name attribute of the first disposition line, and a part is a file exactly if such a line says so |
| MultipartMeaning.PartsAreAllowed | src/llmmaxxing/gateway/profiler.py:358-404 | Every part read has a name of its own from its header and, unless it is a file, at most 8 MiB of well-formed text |
| Canonical.Utf16Injective | src/llmmaxxing/core/canonical.py:59-90 | Distinct texts have distinct UTF-16 code units |
| Canonical.RenderUnique | src/llmmaxxing/core/canonical.py:59-90 | A rendering and what follows it can be told apart in only one way |
| Canonical.RenderInjective | src/llmmaxxing/core/canonical.py:59-90 | No two values share a rendering |
| JsonReader.ReadBack | src/llmmaxxing/core/canonical.py:59-90 | A reader of RFC 8259 text, written from its grammar alone, reads every rendering back as the value rendered |
| JsonReader.DigitsAreDecimal | src/llmmaxxing/core/canonical.py:71-74 | The digits of a number, read in base ten, are worth the number, and none is superfluous |
| JsonReader.EscapeIsShortest | src/llmmaxxing/core/canonical.py:67-70 | Nothing is escaped without need, short escapes are used where there are, and the others have four lower-case digits (section 3.2.2.2 of RFC 8785) |
| CanonicalForm.NormalIdempotent | src/llmmaxxing/core/canonical.py:98-112 | Normalising twice is normalising once |
| CanonicalForm.CanonIdempotent | src/llmmaxxing/core/canonical.py:59-90 | Sorting keys twice is sorting them once |
| CanonicalForm.BytesAreOrderFree | src/llmmaxxing/core/canonical.py:98-119 | Bytes of a normalised value do not depend on the order of array elements or fields at any depth, provided legs differ in order or identifier |
| CanonicalForm.SameBytesSameValue | src/llmmaxxing/core/canonical.py:93-95 | Two values with distinct keys have the same bytes if and only if their arrays agree element by element and their objects have the same value under every key |
| CanonicalForm.KeysInOrder | src/llmmaxxing/core/canonical.py:84-88 | Keys follow UTF-16 code-unit order (section 3.2.3 of RFC 8785), each once |
| CanonicalMeaning.SerializedReads | src/llmmaxxing/core/canonical.py:59-95 | Canonical bytes exist exactly if every integer is in range, and read back as the same value with every object's keys in UTF-16 order, each once |
| CanonicalMeaning.NormalIs | src/llmmaxxing/core/canonical.py:98-112 | Normalising only reorders arrays and leaves each in order: legs by order and identifier, the others by the bytes of their elements |
| CanonicalMeaning.Utf16Reads | src/llmmaxxing/core/canonical.py:84-88 | The code units of a text are its UTF-16 encoding, surrogates included |
| Activation.RunAdvances | src/llmmaxxing/gateway/activation.py:745-1121 | Along every run active generations only grow, deny high-water marks and floors never fall, fence and channels only advance, and retention stays within its bound |
| Activation.AtMostOnce | src/llmmaxxing/gateway/activation.py:745-864 | A command that took effect never takes effect again, even after its dedupe row was pruned |
| Activation.RepeatedUntilAcked | src/llmmaxxing/gateway/activation.py:745-780 | Until its acknowledgement is stored a repeated command is answered from its row, and a different one under its identifier refused |
| Activation.RunChains | src/llmmaxxing/gateway/activation.py:808-864 | The commands a run executes on a channel form a digest chain that ends at its tip |
| Activation.ChainInjective | src/llmmaxxing/gateway/activation.py:808-864 | The tip of a channel fixes every command that took effect on it |
| Activation.ActivationExceedsFloors | src/llmmaxxing/gateway/activation.py:889-1003 | An activation raises the generation and lies above every floor imposed before it |
| Activation.UnackedAreKept | src/llmmaxxing/gateway/activation.py:793-806 | Making room removes no row whose acknowledgement has not been stored |
| Activation.AcksAreFinal | src/llmmaxxing/gateway/activation.py:866-887 | A stored acknowledgement never changes while its row is there, and every other one for it is refused |
| ActivationRules.ExecuteIs | src/llmmaxxing/gateway/activation.py:745-1121 | A command seen before is answered from its row exactly if it is the very same; a new one takes effect exactly if it is next on its channel, its own conditions hold and a row is free. It changes the references, overlays and marks it names, each written out, and nothing else, and adds its row and its place in the chain |
| ActivationRules.DeniesFollowCommands | src/llmmaxxing/gateway/activation.py:1030-1121 | Over any run a subject is denied if and only if the last executed deny or clear-deny for it was a deny, and then with that deny's epoch and floor |
| ActivationRules.OtherStepsAre | src/llmmaxxing/gateway/activation.py:866-887 | An acknowledgement fills its own row once; a later fence is taken over; nothing else changes |
| ActivationRules.RoomIs | src/llmmaxxing/gateway/activation.py:793-806 | Room is made by removing the oldest acknowledged rows, no more of them than needed |
| ActivationState.GatewayLocalState.Open | src/llmmaxxing/gateway/activation.py:538-585 | Opens any disk: without an active or previous bundle that loads nothing is active and recovery is required; otherwise the database decides and the pointer is rewritten to agree |
| ActivationState.GatewayLocalState.Reserve | src/llmmaxxing/gateway/activation.py:793-806 | The loop picks the oldest acknowledged rows, as many as are needed |
| ActivationState.GatewayLocalState.Execute | src/llmmaxxing/gateway/activation.py:808-1003 | Takes effect exactly if the conditions of ActivationRules, written over the tables, hold; then exactly what the command names has changed and its row is recorded. At every instant on the way reopening gives the state before or the state after |
| ActivationState.GatewayLocalState.PushAck | src/llmmaxxing/gateway/activation.py:866-887 | Accepts an acknowledgement if and only if its command has a row with this digest and no other acknowledgement, and stores it once |
| ActivationState.GatewayLocalState.AcceptTakeover | src/llmmaxxing/gateway/activation.py:1403-1419 | Two transactions; every instant reopens to the state between, which denies everything, or to the end |
| ActivationState.GatewayLocalState.RecordOldFence | src/llmmaxxing/gateway/activation.py:1385-1397 | Fences the old host in one transaction, never back |
| ActivationState.GatewayLocalState.CollectBundles | src/llmmaxxing/gateway/activation.py:1464-1481 | Deletes exactly the bundles that no reference needs and that are not listed with the generation of the highest deny floor |
| ActivationState.TakeoverResumes | src/llmmaxxing/gateway/activation.py:1403-1419 | A takeover stopped halfway denies everything, and accepting again completes it |
| ActivationState.StagedBundleLost | src/llmmaxxing/gateway/activation.py:538-585 | A staged bundle that does not load is dropped with its base and nothing else changes |

## Left out

- SpoolWriter.LifecycleSpool.Reopen: its trace is promised for a last live file that is torn or synced; without that the promise is false, and SpoolReopening.ReopeningIsDurableIff says exactly so.
- JournalWriter.AttemptJournal.Reopen: promises nothing for appends after taking over a tail that was neither torn nor synced; Journal.ReopenIsDurableIff is the exact condition.
- LedgerReplay.RecoveryRefinesLive: the replayed clock is not compared, because only snapshots carry it.
- Recovery.CrashRecoveryIsLive: covers the runs of one process; Generations.EveryGenerationRecovers adds restarts.
- Generations.EveryGenerationRecovers: each process ends in a power loss, which fixes what is durable, and takes its checkpoints in the order of their names; a restart's own records are the marking, probe and circuit commands that begin a process.
- SendCapHistory.HistoryIsCapped: speaks of one process, because queued requests do not outlive it, and of a clock that does not go back.
- MultipartRoundTrip.RewriteRoundTrip: the fence field is a token that differs from the model field, as the dispatch contract has it, and the UTF-8 check of header bytes is a parameter.
- CanonicalForm.BytesAreOrderFree: legs without `order` or `leg_id`, which validation rejects, are read as having 0 and the empty text.
- Floating-point numbers in canonical JSON, and the UTF-8 encoding of the canonical text: bundles hold no floats, and the encoding is injective.
- Upper bounds of 2^63 on integers read from JSON: values are unbounded here.
- Threads and asyncio: lock-held regions are single steps; only the cancellation points that the admission steps name are kept.
- Failing system calls: a raised OSError leaves one of the traced directories and stops the writer.
- The durability of directory entries themselves, a missing journal manifest, group-commit timing, the recovery deadline, and disk-usage ratios.
- Segment size and age in the spool: the decision to rotate is a flag; the byte sizes of the journal's segments are kept.
- Account registration and binding records, credential attestation, and accounts added while running.
- Ed25519 signatures, bundle validation, policy envelope checks, authorization leases and deny heartbeats.
- Route filtering, failure classification and the circuit controller: branch-by-branch decisions over one view; the circuits' compare-and-swap and epochs are in the ledger.
- How long a key waits for its turn: QueueTurns proves how long each turn lasts and who is next, but the order of keys is recomputed from their oldest eligible sequences, so the code promises no starvation bound.
- The admission pump's loop without time: a denied fallback leg may be tried again, so its steps are modelled and its termination is not.
- Ingress counters, permits, HTTP relay, the user interface, storage, backup and metrics.
- The reasons given with rejected multipart bodies beyond their kind, extracting the boundary from the content type, and JSON rewriting.
