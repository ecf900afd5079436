# Verified model of the trading platform's stateful core

This project models, in Dafny, the parts of the platform whose correctness is about state and order rather than about
record keeping, and proves what they are for:

- **Component composition** (`Composition.dfy`, `ComponentRegistry.dfy`): the three-colour search that validates the
  graph of registered factories, and the lazy (`resolve`) and eager (`build`) construction over it.
- **Execution journal** (`JsonTree.dfy`, `JournalRecords.dfy`, `ExecutionJournal.dfy`, `JournalWriters.dfy`): a file of
  newline-terminated, hash-chained JSON records; the classification of arbitrary file contents; appends; and any number
  of writers that lock, recover, write (possibly only a prefix) and crash in any order.
- **Execution authorizations** (`Authorization.dfy`, `AuthorizationRegistry.dfy`): issuing against risk and compliance
  evidence, the stored JSON payload, and the shared registry under any interleaving of issue, consume, revoke, evidence
  changes and unlocked checks.
- **Settlement and good-faith rules** (`SettlementCalendar.dfy`, `PurchaseLots.dfy`, `GoodFaith.dfy`): the business-day
  walk behind T+1, the FIFO consumption of purchase lots, and the decision on a cash-account sale with its next safe
  date. T+1 is the standard settlement cycle of SEC Rule 15c6-1(a) (17 CFR 240.15c6-1(a)).
- **Equity analysis** (`Equity.dfy`, `EquityAnalysis.dfy`): one-pass drawdowns and episodes against all-pairs definitions,
  compounding returns, durations and time under water.
- **Historical replay** (`HistoricalReplay.dfy`): the loop that threads a paper account through ordered events.
- **Replay engine** (`PaperTrading.dfy`, `FillRule.dfy`, `Iteration.dfy`, `Backtest.dfy`, `BacktestRuns.dfy`,
  `BacktestJournal.dfy`, `BacktestBooks.dfy`, `BacktestCourse.dfy`, `BacktestProgress.dfy`, `OrderJson.dfy`,
  `DecisionJson.dfy`, `CheckpointJson.dfy`, `CheckpointMembers.dfy`, `CheckpointAmounts.dfy`): the candle loop with
  its checkpoint, pending order, paper portfolio, purchase lots and event journal; when a run goes through; pausing,
  resuming, printing and reading back.

`Wrappers.dfy`, `Numbers.dfy`, `Sequences.dfy`, `Text.dfy`, `OrderTerms.dfy` and `FlatJson.dfy` hold what several parts
share: an option type, extrema, a law of concatenation, Python's string operations, sides and types of orders, and the
members of flat JSON objects. Check everything with
`dafny verify --resource-limit 2000000 --verification-time-limit 0 dfyconfig.toml`.

## How to read it

Code that updates things in place is a class or a method with a loop, proved against a function or predicate that says
what it must compute; the theorems are lemmas about those functions, over every input, every run or every reachable
state. A raised exception is `None` or a constructor of a result type.

Amounts are exact `real` numbers. Timestamps are instants with a calendar date. Text forms (decimal strings, ISO
timestamps, JSON texts) and SHA-256 are parameters:

- JSON texts, timestamps and enumeration values read back as what was written (`Faithful`).
- Exact reals outnumber texts, so a number is only asked to read back *correctly if it reads at all*; results that need
  it to read say so by `Reads`, `NumbersRead`, `Readable` or `AmountsRead`. Python's decimals always have such a text.
  `SuppliedAmountsRoundTrip` asks it of the supplied amounts alone, where arithmetic does not leave the readable numbers.
- Nothing is assumed about the digest except that it is never blank: where two histories share a digest, the result is
  equal content or an explicit pair of colliding texts.

## What the proofs found

- Lazy `resolve` without validation reports the whole active stack plus the repeated name. That is a walk that runs into
  itself, and it is a cycle exactly when it closes at the requested component (`LassoIsCycleWhenClosedAtRoot`). The
  validator's report is always a simple cycle.
- Eager `build` without validation looks for neither gaps nor cycles: `KeyError` comes only from a gap, and a cycle
  without a gap ends at the interpreter's recursion limit or in a factory that fails before (`Registry.Build`).
- The record hash covers everything but `metadata`; only the rest of a journal is committed to (`LastHashCommits`).
- An append whose payload does not name its entity, or whose entity is not new while `reject_duplicates` is off, succeeds
  and makes the file CORRUPTED. `ReadyIffAcceptable` says exactly which appends succeed, `AppendEffect` which of them leave
  the file VALID, and `RepeatCorrupts` that with `reject_duplicates` off any record may be repeated to that end.
- A torn final line is final: no later recovery or append succeeds (`ReachableFiles`). Without the lock, two overlapping
  appends turn a valid journal into INVALID_SEQUENCE (`WithoutLockOverlapCorrupts`).
- `validate_known` reads in separate steps, and still everything it checks held together at its read of the row, after
  its first read and before its last (`UnlockedCheckIsAtomic`); but a passed check says nothing about a moment later
  (`PassedCheckCanBeOvertaken`).
- `evaluate_sell_compliance` compares normalised lot symbols, `_update_lots` the raw ones. For a lot stored with an
  unnormalised symbol a sale is approved and consumes nothing (`UnnormalizedLotIsApprovedButNotConsumed`);
  `FilledSaleExactIff` says exactly when a sale takes what it should.
- The replay engine books every purchase as settled cash, so inside a replay the good-faith check never restricts
  anything beyond the position held (`GfvNeverRestrictsReplay`).
- `to_json` raises on a lot that carries a settlement date; no reachable checkpoint has one
  (`ReachableCheckpointsRoundTrip`).
- `validate_frames` lets frames pass that the observation's constructor then refuses, exactly those with a bid above the
  ask, an observed slippage that is infinite or not a number, or a blank label: session, market status, volatility regime
  or trend regime (`ObservedIffRecordable`; three such frames in `ValidFramesThatStopEveryRun`).
- `simulate_proposal` takes the performance metrics on every exit, and these raise when the curve does not start above
  zero. An account with no initial cash therefore runs until its first approved order and raises at the next candle, even
  if that order would only have been rejected (`RunWithoutMoney`); `run_backtest`, which takes the metrics once more at
  the end, always raises for such an account. `RunSucceedsIff` and `BacktestSucceedsIff` say exactly which runs and
  backtests go through, with collaborators that answer.
- An episode's duration counts from its peak, the time under water only from the first point below it: the share under
  water can be less than the durations of the episodes add up to (`UnderwaterIsSubmerged`).
- The historical replay's `final_state` is `None`, not the initial account, when events were run and none was valid.

## Model

| member | source | states |
|---|---|---|
| FactoryGraph.ValidateFactoryGraph | app/composition/validation.py:4-32 | For every finite factory map: accepted exactly when every dependency is registered and the relation is acyclic; a missing-dependency report comes exactly when one is missing and names the first in registration and declaration order; a circular report is a simple cycle of declared dependencies that starts and ends with the same name |
| FactoryGraph.CheckReferences | app/composition/validation.py:6-10 | The first loop accepts exactly closed graphs and otherwise names the first missing dependency in registration and declaration order |
| FactoryGraph.SearchCycles | app/composition/validation.py:12-32 | On a closed graph the second loop accepts only acyclic graphs and otherwise reports a simple cycle |
| FactoryGraph.GraphVisitor.Visit | app/composition/validation.py:15-28 | The recursive three-colour visit terminates and either finishes the name with the path restored and everything it needs finished earlier, or reports a simple cycle |
| FactoryGraph.GraphVisitor.VisitNew | app/composition/validation.py:23-28 | A name without a mark is put on the path, and after its dependencies taken off again and finished last |
| FactoryGraph.GraphVisitor.VisitDependencies | app/composition/validation.py:25-26 | The loop over the dependencies finishes all of them and leaves the path as it was, or reports a simple cycle |
| FactoryGraph.CloseCycle | app/composition/validation.py:17-20 | Cutting the path at the first occurrence of the repeated name leaves a simple cycle through it |
| FactoryGraph.TopologicalCoverImpliesAcyclic | app/composition/validation.py:30-32 | If the finished names are ordered so that each comes after its dependencies and cover the graph, the graph has no cycle: soundness of acceptance |
| FactoryGraph.TopologicalHasNoCycle | app/composition/validation.py:23-28 | No cycle of dependencies lies within names finished in dependency order |
| FactoryGraph.LassoContainsCycle | app/composition/validation.py:18-19 | A walk that comes back to an earlier position contains a cycle from there on |
| ComponentRegistry.Registry.Register | app/composition/registry.py:17-25 | Blank names and, without overrides, known names are refused and change nothing; an accepted name is added last, or replaced in place |
| ComponentRegistry.Registry.Resolve | app/composition/registry.py:33-57 | Resolution succeeds exactly on constructible components (of a sound graph when strict) and calls exactly the factories of what the name reaches, depth first from left to right, each once and after its dependencies; every component is what its builder returns on the values of its declared dependencies in their order, and passes its validator; every failure is a genuine obstacle: a missing name, a walk that closes on itself, or a factory whose builder, on a failure-free run, raises, returns nothing, or returns what its validator refuses |
| ComponentRegistry.LazyConstruction.Construct | app/composition/registry.py:41-55 | The memoised recursion terminates without prior validation, keeps the active stack and everything already resolved, and reports only genuine obstacles |
| ComponentRegistry.LazyConstruction.ConstructDependencies | app/composition/registry.py:50-53 | Dependencies are resolved left to right; on success all are resolved and the active stack is as before |
| ComponentRegistry.LazyConstruction.CreateComponent | app/composition/factories.py:24-41 | Calls one builder on its resolved dependencies, once, and stores what it returns if the validator accepts that; otherwise the factory has failed on a failure-free run |
| ComponentRegistry.Registry.Build | app/composition/registry.py:59-74 | Building succeeds when every component is constructible and the interpreter has a frame for each, and only if every component is; factories are called depth first over the registered names, once each; every component is what its builder returns on its dependencies, and passes its validator; components come in registration order; `KeyError` means a missing dependency, a recursion failure an unsound graph or too small a limit, a failing factory one that fails on a failure-free run, and an unvalidated cycle without a gap ends in one of the last two |
| ComponentRegistry.EagerConstruction.AddGraph | app/composition/registry.py:65-71 | The unguarded recursion adds the component and all it needs, or fails for a genuine reason; on a sound graph it runs out of stack only if the limit is below the number of factories |
| ComponentRegistry.EagerConstruction.AddAll | app/composition/registry.py:63-72 | The loop over the registered names adds every one of them, or fails for a genuine reason |
| ComponentRegistry.ConstructionsAgree | app/composition/registry.py:38-55 | Any two constructions in dependency order give each shared component the same value (builders are deterministic) |
| ComponentRegistry.LazyAgreesWithEager | app/composition/registry.py:33-74 | A lazily resolved component, and each one constructed on the way, is the very value that the eager build stores under its name |
| ComponentRegistry.ConstructibleReach | app/composition/registry.py:52-54 | Whatever a constructible component reaches is constructible too |
| ComponentRegistry.AllConstructibleIsSound | app/composition/registry.py:59-62 | If every component is constructible, nothing is missing and there is no cycle |
| ComponentRegistry.RefusalIsFinal | app/composition/factories.py:25-41 | A factory that refuses after one construction refuses after every other: the component cannot be constructed at all |
| ComponentRegistry.ObstacleIsFinal | app/composition/registry.py:44-54 | Each obstacle that resolution may report (missing name, closed walk, refusing factory) implies that the component cannot be constructed |
| ComponentRegistry.LassoIsCycleWhenClosedAtRoot | app/composition/registry.py:44-46 | The trail reported by an unvalidated resolution is a cycle if and only if it ends at the requested component, and it always contains a reachable cycle |
| JournalRecords.DictRoundTrip | app/execution_journal/models.py:31-36 | A valid record printed to a dictionary reads back as the same record, its hashes recomputed |
| JournalRecords.SameHashOrCollision | app/execution_journal/models.py:13-16 | Two records with equal record hash agree on sequence, type, entity, timestamp, payload, previous hash and versions, or exhibit two different texts with one digest |
| JournalRecords.SameIdOrCollision | app/execution_journal/models.py:13-16 | Two records with equal record identifier agree on sequence, type, entity, timestamp, payload and previous hash, or exhibit two different texts with one digest |
| JournalRecords.FromDictExactly | app/execution_journal/models.py:17-36 | A dictionary reads as a record exactly when it has the required members, at most the optional ones besides, each with its field's value, and the record can exist: numbered from one, linked, nothing blank, identifier and hash those of its content |
| JournalRecords.LastHashCommits | app/execution_journal/models.py:13-30 | Two hash chains with the same last record hash have the same length and the same hashed content and record id at every position, or exhibit a digest collision |
| JournalRecords.ChainAppend | app/execution_journal/journal.py:67-69 | Appending to a chain keeps it a chain exactly when the new record is linked at its position |
| ExecutionJournal.VerifyIntegrityUnlocked | app/execution_journal/journal.py:21-39 | The loop classifies arbitrary file contents by the first thing that is wrong with them, and counts the records before it |
| ExecutionJournal.ClassifiedByFirstOffence | app/execution_journal/journal.py:21-39 | An empty file is EMPTY, an unterminated one TRUNCATED; otherwise the lines are a chain of records up to the first that offends: CORRUPTED if it is no object, INVALID_SEQUENCE if it is not numbered on, HASH_MISMATCH if it is not linked or no record, CORRUPTED if the payload does not name its entity; without such a line the file is VALID, or CORRUPTED if two records have one identifier or one type and entity |
| ExecutionJournal.NoDuplicatesIff | app/execution_journal/journal.py:37-38 | The three checks by set size find exactly the pairs of records with one identifier or with one type and entity |
| ExecutionJournal.SplitBreaks | app/execution_journal/journal.py:26 | A line ends at a line feed, at a carriage return, or at the two together |
| ExecutionJournal.SplitConcat | app/execution_journal/journal.py:26 | Splitting into lines distributes over appending after a complete line, for newline, carriage return and their pair |
| ExecutionJournal.AcceptedIffLinked | app/execution_journal/journal.py:27-36 | A line is accepted exactly when it parses to a record that is linked after the records before it |
| ExecutionJournal.ValidSound | app/execution_journal/journal.py:21-39 | A VALID file holds a non-empty well-formed chain without duplicate identifiers, one parseable line each, and the count reported is its length |
| ExecutionJournal.ValidComplete | app/execution_journal/journal.py:21-39 | A file that holds a non-empty chain is VALID if it has no duplicate identifiers and CORRUPTED otherwise |
| ExecutionJournal.ValidIff | app/execution_journal/journal.py:21-39 | VALID is reported exactly for files that hold a non-empty well-formed journal |
| ExecutionJournal.RecoveryOfJournal | app/execution_journal/journal.py:42-49 | Recovering a journal returns its records, next sequence number and last hash, and fails only on an empty file that policy forbids |
| ExecutionJournal.RecoveredIsJournal | app/execution_journal/journal.py:42-49 | Recovery succeeds on nothing but journals and returns their records |
| ExecutionJournal.ValidFilesCommit | app/execution_journal/journal.py:42-49 | Two VALID files whose recovered last hashes are equal tell the same history, or their texts exhibit a digest collision |
| ExecutionJournal.ReadyContinues | app/execution_journal/journal.py:61-70 | What is about to be written carries the entry's content, the next sequence number and the last hash, has a new record id, fits the size limit, and with duplicate rejection a new entity |
| ExecutionJournal.ReadyIffAcceptable | app/execution_journal/journal.py:61-70 | On a journal an append goes through exactly for a canonical time, a non-blank entity and policy version, a payload without blank member names, a line within the limit, an allowed empty file and, under rejection, a new entity; otherwise two different texts share a digest |
| ExecutionJournal.RefusalReason | app/execution_journal/journal.py:61-70 | A refused append to a journal fails on the file, then on the entity, then on the fields of the record, then on its length; otherwise two different texts share a digest |
| ExecutionJournal.LineAddsRecord | app/execution_journal/storage.py:11-12 | Writing a record's line after complete lines adds exactly that record to what the file holds |
| ExecutionJournal.AppendEffect | app/execution_journal/journal.py:61-70 | Every append adds its record; the file stays VALID exactly when the payload names its entity and the entity is new, and is CORRUPTED otherwise |
| ExecutionJournal.RepeatCorrupts | app/execution_journal/journal.py:61-70 | Without duplicate rejection, appending the content of any of its records once more, length permitting, turns a journal CORRUPTED, or two different texts share a digest |
| ExecutionJournal.AppendKeepsJournal | app/execution_journal/journal.py:61-70 | The file remains a journal exactly under that same condition |
| ExecutionJournal.JsonlExecutionJournal.Append | app/execution_journal/journal.py:61-70 | A refused append leaves the file alone; a short write leaves exactly the prefix that was taken; a committed one adds exactly one line and, with duplicate rejection and a payload that names its entity, leads from journal to journal |
| ExecutionJournal.JsonlExecutionJournal.VerifyIntegrity | app/execution_journal/journal.py:19-20 | Reports the classification of the current contents and changes nothing |
| ExecutionJournal.UsedAuthorizations | app/execution_journal/journal.py:74-80 | The rebuilt broker memory lists, without repetition, exactly the authorizations of executions that were filled, acknowledged or duplicates |
| JournalWriters.StatusOfFile | app/execution_journal/journal.py:21-24 | A journal followed by an unterminated tail is TRUNCATED, refuses recovery and every append; without a tail it is EMPTY or VALID |
| JournalWriters.StepKeepsSafe | app/execution_journal/journal.py:61-70 | Every step of any writer (lock, recover, write, torn write, crash, release) keeps the file a journal plus an unterminated tail, keeps what each writer knows true, and only adds records |
| JournalWriters.RunKeepsSafe | app/execution_journal/locking.py:19-38 | The same over every interleaving of any number of writers |
| JournalWriters.ReachableFiles | app/execution_journal/storage.py:11-20 | Every reachable file is EMPTY, VALID or TRUNCATED; files only grow; a torn file never changes again and no recovery or append on it succeeds |
| JournalWriters.PreparesAlone | app/execution_journal/journal.py:61-69 | From a free lock a writer that nothing interrupts gets the lock and its line prepared from the file as it is, or has its entry refused and leaves everything as it was |
| JournalWriters.WritesAlone | app/execution_journal/journal.py:69-70 | A writer with a prepared line adds it whole and then gives up the lock, or adds a prefix and gives up the lock at once |
| JournalWriters.CrashesAlone | app/execution_journal/locking.py:19-38 | A writer that dies leaves the file and the other writers alone and holds the lock no more |
| JournalWriters.NoIdentifierTwice | app/execution_journal/journal.py:64-66 | With locking and duplicate rejection no authorization or execution identifier is recorded twice in any reachable file |
| JournalWriters.StaleWriteBreaksSequence | app/execution_journal/journal.py:30 | Two records prepared against the same journal cannot both be written: the second line makes the file INVALID_SEQUENCE |
| JournalWriters.WithoutLockOverlapCorrupts | app/execution_journal/journal.py:18 | With locking disabled, two overlapping appends turn any valid journal into INVALID_SEQUENCE |
| Authorization.PayloadRoundTrip | app/authorization/report.py:8-26 | The stored payload of an authorization reads back as that authorization exactly when its numbers have decimal texts, and otherwise not at all |
| Authorization.PayloadReadsExactly | app/authorization/report.py:10-26 | A payload is read as an authorization if and only if its members spell that authorization, each under its own name, in the current schema version |
| Authorization.BuildsExactly | app/authorization/issuer.py:6-16 | An authorization is built exactly for an intent that is well formed, under a non-blank identity, from two approvals of this very intent that are in force from its issue to its expiry; it agrees with the request in every field |
| Authorization.ConsumesExactly | app/authorization/validation.py:30-37 | An authorization is valid for an intent exactly when it names it by identity, digest and order, the intent is well formed, and the time lies in its validity period |
| AuthorizationRegistry.AuthorizationRegistry.Issue | app/authorization/registry.py:91-103 | Succeeds exactly for a request that its evidence supports, under a new identity, and then adds an unmarked row that stores an authorization agreeing with the request in every field |
| AuthorizationRegistry.AuthorizationRegistry.Revoke | app/authorization/registry.py:106-114 | Marks a known authorization revoked, at its issue time when no time is given, and touches nothing else |
| AuthorizationRegistry.AuthorizationRegistry.SetEvidence | app/authorization/registry.py:188-200 | Sets one of the two marks of an approval, keeps the other, and refuses blank identities and naive times |
| AuthorizationRegistry.AuthorizationRegistry.Consume | app/authorization/registry.py:142-175 | Commits exactly when authorization, row and evidence allow it at the start, marks a single-use row, and otherwise rolls back |
| AuthorizationRegistry.AuthorizationRegistry.ValidateKnown | app/authorization/registry.py:125-139 | Alone on the registry, accepts exactly what consuming would accept |
| AuthorizationRegistry.MarksAreNeverCleared | app/authorization/registry.py:106-122 | Over every interleaving rows never disappear or change payload, and consumed, revoked and superseded marks are never cleared |
| AuthorizationRegistry.RunKeepsInv | app/authorization/registry.py:91-200 | Over every interleaving all rows come from issuing, recorded uses match their rows and are unique, and checks under way are sound |
| AuthorizationRegistry.AtMostOneUse | app/authorization/registry.py:162-169 | A single-use authorization is consumed successfully at most once, in any interleaving by any number of processes |
| AuthorizationRegistry.RequestedOnceUsedOnce | app/authorization/registry.py:142-175 | An authorization that was requested for a single use is used at most once, in any interleaving |
| AuthorizationRegistry.RowsCarryRequests | app/authorization/issuer.py:13-17 | Every row of every reachable registry stores an authorization that agrees, field by field, with a supported request, and reads back as it |
| AuthorizationRegistry.RequestsAreIssueCalls | app/authorization/registry.py:91-103 | The requests behind the rows are those of issue calls of the run |
| AuthorizationRegistry.StepWrites | app/authorization/registry.py:91-200 | What each step writes: an issue adds one row, a consume that meets its conditions marks a single-use row as consumed, a revocation marks its row, an evidence call sets one column; nothing else changes |
| AuthorizationRegistry.RevocationAlone | app/authorization/registry.py:106-114 | An undisturbed revocation of a known authorization marks its row at the given time |
| AuthorizationRegistry.CheckAlone | app/authorization/registry.py:125-139 | An undisturbed check passes exactly when everything it needs holds, and changes nothing |
| AuthorizationRegistry.UsesAreConsumeCalls | app/authorization/registry.py:142-170 | The uses of a run are exactly its consume calls made in a state in which the authorization was known and unrevoked, unused if single-use, its evidence clear, and all of it valid for the intent and time |
| AuthorizationRegistry.NoUseOnceBarred | app/authorization/registry.py:154-169 | From any state in which an authorization is revoked, its evidence revoked or superseded, or a single use of it spent, no continuation by any processes uses it again |
| AuthorizationRegistry.CallsBar | app/authorization/registry.py:106-122 | Revoking, marking either piece of evidence, and a successful single-use consume each bar the authorization from the step on at which they take effect |
| AuthorizationRegistry.UsesRestOnEvidence | app/authorization/issuer.py:6-17 | Every successful consume rests on risk and compliance evidence that was approved for the very intent, agrees with it in all eight order fields, and is within its validity period at that time |
| AuthorizationRegistry.IssuedEvidenceInForce | app/authorization/validation.py:22-38 | An authorization built from evidence and valid for consumption implies that both pieces of evidence are in force then |
| AuthorizationRegistry.UnlockedCheckIsAtomic | app/authorization/registry.py:125-139 | Whenever the unlocked check passes, its own steps include a first read, a later read of the row and a still later last read, and in the registry as it was at the read of the row consuming would have been allowed |
| AuthorizationRegistry.PassedCheckCanBeOvertaken | app/authorization/registry.py:188-200 | After a check has passed, revoking the evidence makes the same authorization unusable: a passed check is no permission |
| SettlementCalendar.AddMarketBusinessDays | app/compliance/settlement_calendar.py:16-25 | For any finite holiday set the walk terminates on the day such that exactly `days` business days lie after the start up to it, itself one of them; negative counts are refused |
| SettlementCalendar.BusinessDaysAreWeekdays | app/compliance/settlement_calendar.py:13-14 | The business days are the days outside the holidays that are neither Saturday nor Sunday |
| SettlementCalendar.BusinessDayAhead | app/compliance/settlement_calendar.py:13-14 | A finite holiday set leaves a business day after every date: why the walk terminates |
| SettlementCalendar.NthIsFirst | app/compliance/settlement_calendar.py:16-25 | A date has at least n business days behind it exactly from the n-th business day on |
| SettlementCalendar.NthIsUnique | app/compliance/settlement_calendar.py:16-25 | There is only one n-th business day after a start |
| SettlementCalendar.WalksAdd | app/compliance/settlement_calendar.py:16-29 | Walking m days and then n days is walking m+n days |
| SettlementCalendar.SettlesOnNextBusinessDay | app/compliance/settlement_calendar.py:27-29 | T+1 is the first business day after the trade: it is one, and none lies between |
| PurchaseLots.UpdateLots | app/backtesting/runner.py:201-215 | Without a fill nothing changes; a purchase adds one lot of settled cash; a sale takes from the lots of its symbol first in, first out |
| PurchaseLots.SellConserves | app/backtesting/runner.py:206-215 | A sale reduces its symbol's total by the requested quantity, capped by what is held |
| PurchaseLots.SellLeavesOthers | app/backtesting/runner.py:209-214 | A sale leaves every other symbol's total alone |
| PurchaseLots.SellKeepsValid | app/backtesting/runner.py:209-214 | Lots stay valid: remaining quantities between zero and what was bought |
| PurchaseLots.SellIsFifo | app/backtesting/runner.py:206-215 | Each lot loses only what the sale still needs after all earlier lots of the symbol are empty, in closed form over the original lots; order is kept and exactly the exhausted lots are dropped |
| PurchaseLots.TradingConserves | app/backtesting/runner.py:201-215 | Over any run of purchases and sales within what is held, each symbol's total changes by exactly bought minus sold |
| GoodFaith.DateWhenQuantityIsSafe | app/compliance/gfv_validator.py:106-126 | The loop over lots sorted by settlement date returns the date that the next results characterise |
| GoodFaith.EarliestSafeDate | app/compliance/gfv_validator.py:94-126 | From today on, the quantity is safe on a date exactly when that date is not before the returned one, and never when none is returned: the returned date is the least safe one |
| GoodFaith.DecisionIsRight | app/compliance/gfv_validator.py:17-91 | Approval exactly for well-formed requests within the position (and, for cash accounts, within the safe quantity); the safe and restricted quantities are what they claim, a next date comes only with a cash sale within the position, and the decision's constructor accepts it |
| GoodFaith.DecisionByFunding | app/compliance/gfv_validator.py:17-103 | A cash sale is approved exactly if it is well formed and at most what remains of the symbol's lots bought with settled cash, or with sale proceeds or provisional deposits settled by today; unknown funding never counts; a margin sale exactly up to the position; reason and quantities are given for every case |
| GoodFaith.NextDateByFunding | app/compliance/gfv_validator.py:106-131 | The next eligible date of a refused cash sale is the first on which those funds reach the request, and none is given exactly if there is no such date |
| Text.NormalizeIs | app/compliance/gfv_validator.py:33-34 | The form under which symbols are compared is the text without white space at its ends, small letters as capitals |
| GoodFaith.NextDateIsFirstApproval | app/compliance/gfv_validator.py:61-66 | For a cash sale within the position that is refused, the same request is approved at a later time exactly from the reported date on |
| GoodFaith.RecordPurchaseFundedBySale | app/compliance/settlement_ledger.py:36-55 | Adds one lot dated at the first business day after the funding sale |
| GoodFaith.FundedLotSafeFromNextBusinessDay | app/compliance/gfv_validator.py:98-103 | A lot funded by a sale is restricted before the first market business day after the sale and safe from then on |
| GoodFaith.ApprovedSaleConserves | app/backtesting/runner.py:201-215 | On lots with normalised symbols an approved quantity is consumed exactly, other symbols untouched |
| GoodFaith.ApprovedTradingConserves | app/backtesting/runner.py:201-215 | Over any run of purchases and sales, each sale approved on the lots it meets, normalised lots stay valid and normalised and each symbol changes by exactly bought minus sold |
| GoodFaith.FilledSaleExactIff | app/backtesting/runner.py:206-215 | A filled sale takes exactly its quantity from its symbol if and only if that much is held under exactly that spelling |
| GoodFaith.UnnormalizedLotIsApprovedButNotConsumed | app/compliance/gfv_validator.py:31-34 | A concrete lot with a lower-case symbol: the sale is approved and consumes nothing |
| Equity.CalculateDrawdownObservations | app/analytics/equity.py:92-99 | The one-pass loop yields for each point its running peak and its loss against it; an invalid curve is refused |
| Equity.ValidateEquityCurve | app/analytics/equity.py:40-52 | The validation accepts exactly non-empty curves of positive equity at strictly increasing times |
| Equity.PeakIsMaximum | app/analytics/equity.py:94-97 | The running peak is the maximum of the points so far, and one of them |
| Equity.DrawdownIsWorstEntry | app/analytics/equity.py:97-98 | A point's drawdown is the worst loss over all earlier entries |
| Equity.MaximumIsOverAllPairs | app/analytics/equity.py:129 | The largest one-pass drawdown is the maximum of 1 - e_j/e_i over all pairs i <= j |
| Equity.IdentifyDrawdownEpisodes | app/analytics/equity.py:102-121 | The episodes are disjoint and ordered, each trough is the minimum of its span and each recovery the first return to the peak, they cover exactly the points below their running peak, and only the last can be unrecovered |
| Equity.MaximumIsDeepestEpisode | app/analytics/equity.py:124-130 | The maximum over observations is the maximum over episodes |
| Equity.UnrecoveredIffCurrentDrawdown | app/analytics/equity.py:119-121 | An episode is unrecovered exactly when it is the last one and the curve ends below its running peak |
| EquityAnalysis.ReturnsCompound | app/analytics/equity.py:55-60 | The returns between neighbouring points compound to the return over the curve |
| EquityAnalysis.UnderwaterIsSubmerged | app/analytics/equity.py:131-135 | The time under water, added up interval by interval, is exactly the time from the first fall of each episode to its end |
| EquityAnalysis.LongestDuration | app/analytics/equity.py:136-144 | The longest duration is the maximum over the episodes from peak to recovery, or to the end of the curve; zero without episodes |
| EquityAnalysis.AnalyzeEquity | app/analytics/equity.py:124-151 | The summary's returns compound to its total return; its maximum drawdown is over all pairs and over all episodes; its average is over the episodes, its longest duration their maximum, its time under water what they cover as a percentage of the time observed; current drawdown is the last point's loss against its running peak; recovered and unrecovered counts add up, one is unrecovered exactly when the curve ends below its peak |
| HistoricalReplay.OrderIsStablePermutation | app/historical_replay/runtime.py:42-46 | Ordering is a permutation, sorted by the policy's key, and stable |
| HistoricalReplay.OrderFollowsPolicy | app/historical_replay/runtime.py:42-46 | Input order leaves the events alone; the other two policies sort them by time, or by time and sequence, and keep the input order of events that this does not tell apart |
| HistoricalReplay.ValidateRequest | app/historical_replay/validation.py:7-21 | The checks accept exactly requests of allowed size whose events pairwise differ where the policy or the replay wants them to, belong to the account, and ask for a positive quantity |
| HistoricalReplay.ValidateResult | app/historical_replay/runtime.py:47-53 | A response is accepted exactly if it is a cycle result of this request and account that reports no other symbol or quantity |
| HistoricalReplay.RunEvents | app/historical_replay/runtime.py:17-35 | In the run each event is skipped after a failure in stop mode, and is otherwise attempted on the account left by the latest valid event: completed, rejected, or failed with its stage, by what the coordinator answers to the calls so far; the calls returned are those made |
| HistoricalReplay.TryEvent | app/historical_replay/runtime.py:21-35 | One event is COMPLETED exactly if the request is acceptable, the response is a result of its own, and the cycle was completed; REJECTED exactly if it was so with one of the five other outcomes; FAILED otherwise, with the stage that failed; only a valid event carries an account, the response's |
| HistoricalReplay.CallsCarryLatestAccount | app/historical_replay/runtime.py:18-26 | Call number j of those made is the attempt on some event after exactly j calls for earlier events, carries that event's request id, and the account left by the latest earlier valid event or the initial one |
| HistoricalReplay.StopsAfterFailure | app/historical_replay/runtime.py:19-31 | In stop mode everything after a failure is skipped and calls nobody, so there is at most one failure |
| HistoricalReplay.NoCallAfterFailure | app/historical_replay/runtime.py:19-31 | In stop mode all calls of the run had been made when the failure happened |
| HistoricalReplay.SkipsOnlyAfterFailure | app/historical_replay/runtime.py:19-20 | An event is skipped only in stop mode and only after a failure; continue mode skips nothing |
| HistoricalReplay.LastValidIsLatest | app/historical_replay/models.py:141-142 | The account of the last valid result is the one the loop ended with |
| HistoricalReplay.Replay | app/historical_replay/runtime.py:8-41 | Whatever the coordinator does, the assembled result passes the count, status and final-state checks of its constructors; its final state is the latest valid account, or none if no event was valid |
| PaperTrading.ChangeConserves | app/paper_trading/portfolio.py:33-50 | A fill moves value between cash, cost and realised profit without creating any, and never sells more than is held or spends more than there is |
| PaperTrading.ApplyFillBalances | app/paper_trading/portfolio.py:18-61 | Applying a fill keeps cash plus cost equal to initial cash plus realised profit, equity equal to cash plus market value, positions sorted out one per symbol |
| PaperTrading.ApplyFillMoves | app/paper_trading/portfolio.py:30-55 | The fill's symbol moves by exactly the filled quantity, every other symbol stays, and a sale never exceeds the position |
| PaperTrading.ApplyFillExplained | app/paper_trading/portfolio.py:18-61 | A purchase fills exactly if there is cash for it, a sale if that much is held; cash moves by the notional at the fill price, profit is realised by sales alone at price minus average cost, and the totals are those of the positions |
| PaperTrading.FillMovesPosition | app/paper_trading/portfolio.py:36-55 | The symbol's position is replaced by one of the new quantity, at the average of what was paid, valued at the mark, or goes when nothing is left; every other position stays |
| PaperTrading.ApplyFillKeepsSymbolOrder | app/paper_trading/portfolio.py:56 | Positions stay in the order of their symbols |
| PaperTrading.SimulationShape | app/paper_trading/simulator.py:16-80 | A simulated proposal either changes nothing but the journal or applies exactly one fill of the whole proposal at one price and adds one equity point |
| PaperTrading.SimulationExplained | app/paper_trading/simulator.py:26-80 | An order is filled exactly if it is approved under its own request, the fill rule fills it, there is a last price and the portfolio takes the fill at the rule's price, marked at the last price; otherwise it is rejected, or not filled where the rule says so, and nothing changes but the journal; the events of each outcome are given |
| PaperTrading.OutcomesReadIff | app/paper_trading/metrics.py:17-23 | The metrics can read a journal exactly if no fill's last reported profit is unreadable and not both infinities are reported |
| PaperTrading.SimulationSucceeds | app/paper_trading/simulator.py:26-80 | On balanced books the simulator succeeds exactly on consistent inputs whose curve starts above zero and whose journal reports outcomes that read as numbers, none infinite beside its opposite, with a price for what fills |
| PaperTrading.OutcomeFacts | app/paper_trading/metrics.py:11-23 | A simulated proposal extends the curve by non-negative points only and leaves the journal as readable to the metrics as it was |
| PaperTrading.SimulationKeepsBooks | app/paper_trading/simulator.py:46-70 | After any simulated proposal the books balance and the updated purchase lots still agree with the positions on every symbol |
| FillRule.FillsAtSideQuote | app/paper_trading/execution.py:19-46 | An order fills exactly when quote and order are of one symbol and close enough in time and it is a market order or a limit order that the quote meets; exactly a current limit order that the quote misses is left unfilled; all else is rejected; the price is the ask for a purchase and the bid for a sale |
| Iteration.IterateSplits | app/backtesting/runner.py:81 | A loop to `stop` is the loop to any point between, followed by the loop from there |
| Iteration.IterateKeeps | app/backtesting/runner.py:81-171 | What every step of a loop that may fail keeps, every run of it keeps |
| Backtest.ValidateFrames | app/backtesting/datasource.py:8-33 | The loop accepts exactly the non-empty frame lists of one symbol in which each candle opens after the one before it closed and all values are in range |
| Backtest.CloseTimesIncrease | app/backtesting/datasource.py:19-21 | Closing times of valid frames strictly increase |
| Backtest.SortIsIdentity | app/backtesting/runner.py:91-92 | Re-sorting observations that are in time order changes nothing |
| Backtest.Run | app/backtesting/runner.py:61-171 | The candle loop with its checks of fingerprints and stop index computes the checkpoint that the results below are about |
| BacktestRuns.PauseResume | app/backtesting/runner.py:49-80 | From any starting point, running to j and resuming to k gives the same checkpoint, or the same failure, as running straight to k, with or without a pending order at the pause |
| BacktestRuns.AnyPauses | app/backtesting/runner.py:49-58 | Any number of pauses changes nothing |
| BacktestRuns.ResumedBacktest | app/backtesting/runner.py:33-58 | A backtest resumed from a checkpoint at any pause gives the outcome, or the failure, of the backtest without the pause |
| BacktestRuns.ContinuedRun | app/backtesting/runner.py:61-82 | A checkpoint is continued exactly if its schema and all four fingerprints are those of the inputs and the stop lies between its next candle and the last frame; the run is then at its checkpoint, or takes one candle and goes on |
| BacktestRuns.FreshRun | app/backtesting/runner.py:67-72 | A fresh run starts from the initial cash at the opening of the first candle, with nothing recorded, and there is none for less than no cash |
| BacktestCourse.StepFollows | app/backtesting/runner.py:81-171 | Each candle simulates the waiting order against its own quote and opening time, analyses the candles so far, and takes one course: warming up, unanswered, unparsed, holding, unmatched, or an order of the intent itself put to compliance with the portfolio after execution, the fills so far, the market state, the risk decision and, for a cash sale, the good-faith decision; the books, the pending order, the counters and the exact sequence of events with their details are given for each |
| BacktestCourse.StepIff | app/backtesting/runner.py:81-171 | A candle goes through if and only if its observation passes its constructor, a waiting order reads back and can be simulated into a lot, and the analysis leads to one of these courses |
| BacktestCourse.StepLeavesOrderIff | app/backtesting/runner.py:118-170 | An order is left pending exactly if the candle is past warm-up, the last response of its time parses to the advice to buy or sell, the last intent of its time matches, and compliance approves the intent's own order |
| BacktestCourse.CourseIsOne | app/backtesting/runner.py:118-170 | No decision takes two courses |
| BacktestRuns.NoLookAhead | app/backtesting/runner.py:81-171 | Inputs that agree on the first k frames and on the responses and intents at their closing times give the same run state at stop k, and fail together |
| BacktestJournal.StepAccounts | app/backtesting/runner.py:81-171 | Each candle keeps every counter equal to the number of its journal events and every history at its matching length |
| BacktestJournal.StepAdds | app/backtesting/runner.py:94-170 | A candle's new events contain a paper execution exactly when an order was pending before it, and an approved order-compliance event exactly when one is pending after it |
| BacktestJournal.JournalAccountsForRun | app/backtesting/runner.py:61-171 | In every reachable checkpoint events are numbered 1..n; proposals, approved, rejected and filled are the counts of their events; portfolio history and equity curve have filled+1 entries, observations one per candle; and candle i+1 executes exactly when candle i approved |
| BacktestBooks.StepKeepsBooks | app/backtesting/runner.py:94-113 | Each candle keeps books, lots and positions consistent, and leaves pending only the intent supplied for that candle, neither resized nor repriced, with its approval |
| BacktestBooks.BooksBalanceThroughoutRun | app/backtesting/runner.py:61-171 | In every reachable checkpoint cash plus cost of positions is initial cash plus realised profit, equity adds unrealised profit, purchase lots add up to the position in every symbol, and the curve leads from initial cash to current equity |
| BacktestBooks.GfvNeverRestrictsReplay | app/backtesting/runner.py:151-153 | Inside a replay a cash sale passes the good-faith check exactly when it is well formed and within the position |
| BacktestProgress.ObservedIffRecordable | app/market_history.py:25-49 | On valid frames the observation can be made exactly when the bid does not exceed the ask, the slippage if given is finite, and session, market status, volatility and trend labels are not blank |
| CheckpointJson.ObservationsRecordCandles | app/backtesting/runner.py:84-92 | After every fresh run the market observations are those of the candles so far, in order, field by field |
| BacktestProgress.ValidFramesThatStopEveryRun | app/backtesting/runner.py:81-94 | Three frames pass the validation and stop every run at once: one with a bid above its ask, one with a slippage that is not a number, one whose volatility regime is a form feed |
| BacktestProgress.UnrecordableCandleStopsRun | app/backtesting/runner.py:84-90 | No run over valid frames gets past a candle that cannot be recorded, whatever the collaborators do |
| BacktestProgress.OrderNeedsMoney | app/paper_trading/metrics.py:14-16 | A pending order on a curve that starts at nothing makes the execution raise, whatever comes of the order |
| BacktestProgress.RunWithoutMoney | app/backtesting/runner.py:61-171 | Whatever the collaborators answer, a run without initial cash has traded nothing, has gone no further than one candle past the first that orders, and has exactly that order waiting |
| BacktestProgress.RunSucceedsIff | app/backtesting/runner.py:61-171 | With collaborators that answer and texts that read, a fresh run reaches a stop exactly when the frames are valid, the stop is among them, every candle before it can be recorded, and the initial cash is positive, or zero with no order by the candles before the last: the simulator never finds its inputs inconsistent, a text unreadable, or a lot invalid in a reachable state |
| BacktestProgress.BacktestSucceedsIff | app/backtesting/runner.py:33-46 | With such collaborators a fresh backtest, metrics included, succeeds exactly on valid frames, every one of them recordable, and positive initial cash |
| OrderJson.ProposalRoundTrip | app/backtesting/runner.py:174-190 | The JSON text of a pending order reads back as that order exactly when its amounts have decimal texts and its session exists, and otherwise not at all |
| OrderJson.ProposalReadsExactly | app/backtesting/runner.py:182-189 | A text is read as an order if and only if its members spell that order, each under its own name |
| DecisionJson.DecisionRoundTrip | app/backtesting/runner.py:192-198 | The JSON text of a compliance decision reads back as that decision exactly when its numbers have decimal texts, and otherwise not at all |
| DecisionJson.DecisionReadsExactly | app/backtesting/runner.py:192-200 | A text is read as a decision if and only if its members spell that decision, each under its own name |
| DecisionJson.OwnCodecsAreFaithful | app/backtesting/runner.py:95-97 | An engine that stores pending orders and decisions with the program's own codecs never reads another order or decision than it wrote |
| CheckpointJson.CheckpointRoundTrip | app/backtesting/results.py:51-72 | A checkpoint with valid undated lots, valid observations in time order, and amounts that have decimal texts survives JSON unchanged |
| CheckpointMembers.ReadsExactly | app/backtesting/results.py:51-118 | A JSON value is read as a checkpoint if and only if its members spell that checkpoint, each under its own name, with lots and observations that pass their constructors |
| CheckpointMembers.SortIsStable | app/backtesting/results.py:60-61 | The observations read are those listed, sorted by time and symbol, equal ones in their order |
| CheckpointJson.ReachableCheckpointsRoundTrip | app/backtesting/models.py:136-160 | Every checkpoint that a fresh run reaches can be printed, and reads back as itself when its amounts have decimal texts |
| CheckpointJson.SerializedPauseResume | app/backtesting/runner.py:49-58 | Pausing at j, printing the checkpoint, reading it back (its amounts having decimal texts) and resuming to k is the uninterrupted run to k, with the same failures |
| CheckpointAmounts.RulePricesRead | app/paper_trading/execution.py:30-46 | The fill rule prices in numbers that have texts when its quotes have |
| CheckpointAmounts.ReachableAmountsRead | app/backtesting/runner.py:81-113 | If the supplied amounts have decimal texts, the market prices in such numbers, and arithmetic does not leave them, every amount in every reachable checkpoint has one |
| CheckpointAmounts.SuppliedAmountsRoundTrip | app/backtesting/results.py:51-72 | Under those conditions on what is supplied, every reachable checkpoint survives JSON unchanged and pausing through a file is the uninterrupted run |
| CheckpointJson.ListRoundTrip | app/backtesting/results.py:55-61 | A printed list reads back if each of its items does |

## Left out

- CheckpointJson.ReachableCheckpointsRoundTrip: asks that the checkpoint's amounts have decimal texts (`AmountsRead`), because exact reals, unlike Python's rounded decimals, need not; fractions such as an average cost of 10/3 are exact here. `CheckpointAmounts.SuppliedAmountsRoundTrip` moves the condition to what is supplied.
- CheckpointJson.SerializedPauseResume: asks the same of the paused checkpoint.
- CheckpointAmounts.SuppliedAmountsRoundTrip: asks that arithmetic on readable numbers stays readable, as it does for fractions of integers; Python gets there by rounding.
- CheckpointJson.CheckpointRoundTrip: works on JSON trees, not characters; the reader's tolerance for numbers given as text, and for absent amounts in observations, is not modelled, and event statuses are an enumeration.
- FactoryGraph.ValidateFactoryGraph: the interpreter's recursion limit, which a very deep chain of dependencies would exhaust, is not modelled.
- ComponentRegistry.Registry.Resolve: the interpreter's recursion limit bounds only `build` here; a very deep chain can also exhaust it in `resolve` and in the validator.
- ComponentRegistry.Registry.Build: the recursion limit counts frames of `add_graph` only, not those of the comprehension around it and of the factories.
- ExecutionJournal.VerifyIntegrityUnlocked: bytes are characters, so invalid UTF-8 counts as invalid JSON; JSON floats do not occur.
- AuthorizationRegistry.AuthorizationRegistry.Consume: SQLite's transaction is one atomic step; disk failures inside it are not modelled.
- AuthorizationRegistry.AuthorizationRegistry.SetEvidence: the default of the current time is a parameter.
- SettlementCalendar.AddMarketBusinessDays: dates are unbounded integers; Python's overflow past the year 9999 is not modelled.
- DecisionJson.DecisionRoundTrip: the reader here insists on a Boolean approval and on lists of texts, where the source takes any JSON value.
- PaperTrading.ApplyFillExplained: the positions held are taken as distinct and positive, as in every portfolio that the engine builds; `apply_fill` itself would also take others, keep the last of two with one symbol, and sort them.
- FillRule.FillsAtSideQuote: a maximum quote age too large for a `timedelta` raises in the source.
- CheckpointAmounts.ReachableAmountsRead: asks the same closure of readable numbers under exact arithmetic.
- BacktestProgress.RunSucceedsIff: what makes indicators, risk or order compliance raise is not modelled; indicators are assumed to answer on every opening part of the candles, the others always, as is the parser of responses, whose ValueErrors are rejections.
- Decimal context rounding and overflow; infinities and NaN, except in the observed slippage of a frame.
- Wording of messages and reasons, time zones beyond aware or naive, and case outside ASCII.
- Lock files, timeouts and polling, `fsync`, file creation: mutual exclusion and appending of a prefix of the bytes are assumed.
- Database schema creation, the `issued_at` column and schema migration of the authorization registry.
- Indicators, strategy scoring, prompts, response parsing, risk and order compliance: arbitrary deterministic functions of what the engine passes them, failing or not.
- Historical replay records, their serialisation, metadata and criteria; the portfolio coordinator is any function of all requests so far.
- Daily, weekly and monthly returns of the equity analysis; the values of the paper-trading metrics, only their failure being modelled, and the other fields of the backtest result record.
- Replay suites, parameter sweeps and experiments, whose coordinators are the same fail-fast loop as the historical replay.
- Broker protocols, transports, GUI, environment loading, policies and their serialisers.
