# Verified core of the accounts, chat and test-runner code

This project models four parts of the repository in Dafny and proves what they promise.

* **The consolidation chart of accounts** (`backend/src/accounts`). Every account may carry a consolidation
  number; when the tenant's consolidation chart has an account of that number, the account's consolidation
  name and description must be that account's. The data is denormalised and kept in line by four mechanisms:
  deriving on write, following a changed chart account, one resync at the end of an import that reads the
  chart once, and a resync on a role change. `Ledger`, `AccountWrites`, `AccountImport`, `Charts` and
  `ConsolidationStatus` say what each statement and request means, `ImportSimulation` how the import's row
  loop stands to its rows applied one by one, and `ImportedTable` what table an import leaves; class `Tenant`
  performs them step by step and is proved against them; `TenantRuns` takes any sequence of requests.
  `ChartLocks` has the chart row locks as steps of interleaved transactions.
* **One chat turn** (`backend/src/ai`). The provider, the tools and the text detectors are arbitrary
  functions. `ChatTurn.Turn` is the loop with its retry counters, `ChatRuns` what holds of whole turns;
  `ProviderMessages` and `HistoryReplay` the pairing of tool calls and results; `ContextBudget` the
  compaction; `BulkCoverage` the target sets, the coverage check and the plans; `SearchAllProgress` the
  no-progress counter; `ToolCallSignature` the signature of repeated calls; `Trimming` when a text is blank;
  `StableJson` the canonical text of a JSON value (RFC 8259).
* **The CI spec scheduler** (`backend/scripts/run-ci-tests.js`). `SpecScheduler` has the workers as steps
  taken in any order; class `Schedule` performs the steps and runs them to the end; `SpecCount` the sorting
  into queues and the closing count; `ExclusiveSpecs` the search that decides what runs alone.
* **The single-flight token refresh** (`frontend/src/api.ts`). `TokenRefresh` has flights, requests, logout
  and login as interleaved steps; class `Client` holds the module's state and performs them.

Where the source changes state, the model is a class whose methods are proved equal to a function of the old
state, and the theorems are about that function, over every input, every run or every interleaving.

## What the proofs found

* An account write can derive from a chart that is no longer (or not yet) the consolidation chart in one
  case: the role is at a chart created after the write's locking statement saw the charts. Creating a chart
  does not lock the others. `ChartLocks.DerivedIsCurrent` gives the exact condition. It fails in two ways,
  each with its run: with no chart at all there is nothing to lock
  (`ChartLocks.WithoutChartsTheRoleCanAppear`), and a write that holds a chart still derives from none when
  the role is at one its statement never saw (`ChartLocks.HeldLocksMissANewChart`).
* Locking the charts in id order does not rule out deadlock. A transaction that has its locks may still wait
  for a row it writes: a role change must write the chart that holds the role, and that can be one created
  after its locking statement, with a smaller id than the charts it holds. An account write that holds the
  new chart and waits for the others then closes a circle. `ChartLocks.CircleNeedsUnseenWrite` proves that
  this is the only way to a circle, `ChartLocks.UnseenWriteClosesCircle` that whenever it comes up a circle
  can follow, and `ChartLocks.CircularWaitIsReachable` gives the run. The comments at
  `backend/src/accounts/consolidation.ts:67-86` have chart writers and account writes queue behind each other;
  that holds for the charts their locking statements saw.
* A refused refresh bumps the session generation once more for each listener told of the session's end
  (`AuthContext` registers one that clears the state). It is exactly one bump when the session held no token
  or nobody listens (`TokenRefresh.OutcomeTellsSession`); with one listener a login and a refused refresh take
  the generation from 0 to 3 (`TokenRefresh.EndedCanBumpTwice`).
* The comment at `backend/src/accounts/accounts.service.ts:568-574` keeps what the caller sent when no account of
  the consolidation chart has the number. There is one exception: an account of that chart that an update
  renumbers or moves out, and maps to the number it had, is looked up as it still is in the table, so it gets
  its own old name and description. `AccountWrites.UpdateDerives` has the exact condition and
  `AccountWrites.OwnOldNumberKeepsOldName` a run.
* The signature that recognises a repeated response (`backend/src/ai/ai-chat-orchestrator.service.ts:245-249`)
  tells calls apart only while their names and arguments hold none of its two separator characters, which valid
  JSON arguments never do: `ToolCallSignature.SignatureIsAmbiguousExactly`.
* A reference that failed and was later covered counts twice towards the expected count of its target set
  (`backend/src/ai/ai-chat-orchestrator.service.ts:700-701`); `BulkCoverage.IsIncomplete` counts as the code does.

## Model

| member | source | states |
|---|---|---|
| Ledger.ResyncReachesFixpoint | backend/src/accounts/consolidation.ts:174-204 | From any rows, one resync pass brings every account in line, although the chart's accounts are both sources and targets; it rewrites exactly the rows out of line, only their two derived columns, and leaves a second pass nothing |
| Ledger.ResyncIsByRow | backend/src/accounts/consolidation.ts:174-204 | Leaving rows already in line alone gives the same table as setting every mapped row |
| Ledger.ResyncRewrites | backend/src/accounts/consolidation.ts:174-204 | The rows that change are exactly the rows out of line, and none is out of line afterwards |
| Ledger.RemapRewrites | backend/src/accounts/consolidation.ts:212-247 | The rows a remap changes are exactly those it reports: mapped to one of the numbers, not the excluded one, and not already pointing at the new number with its name and description |
| Ledger.SourceAt | backend/src/accounts/consolidation.ts:100-118 | Under the unique key a lookup by number finds exactly the chart's account of that number |
| Ledger.InLineMeansNoneOutOfLine | backend/src/accounts/consolidation.ts:174-204 | The invariant holds if and only if the resync statement would select no row |
| AccountWrites.NoStaleNameSurvives | backend/src/accounts/accounts.service.ts:568-601 | After an update the name and description are those of the account the lookup finds for the number; otherwise what the caller sent, and a stored value only for an unchanged number; a null number clears both |
| AccountWrites.DerivedIsInLine | backend/src/accounts/accounts.service.ts:575-601 | Deriving leaves the row in line with every account of the chart, itself included |
| AccountWrites.SaveAndFollowKeepsInLine | backend/src/accounts/accounts.service.ts:550-565 | A saved row that is in line, with its followers told of every change the chart's accounts can see, leaves the whole table in line |
| AccountWrites.UpdateKeepsConsistent | backend/src/accounts/accounts.service.ts:479-566 | Every update keeps the unique key, the chart references and the derived columns in line |
| AccountWrites.CreateKeepsConsistent | backend/src/accounts/accounts.service.ts:423-477 | Every create keeps them too |
| AccountWrites.RenumberingMovesFollowers | backend/src/accounts/accounts.service.ts:516-543 | Renumbering from p to q leaves every other account formerly at p or q at q with its name and description and changes no other; its own self-reference follows unless the caller gave a number |
| AccountWrites.OutsideWritesChangeNoOther | backend/src/accounts/accounts.service.ts:516-530 | An account that leaves the consolidation chart, or was never in it, changes no other account |
| AccountWrites.JoiningTakesMappedAccounts | backend/src/accounts/accounts.service.ts:521-523 | An account joining the chart takes along exactly the accounts mapped to its number |
| AccountWrites.CreateAnswers | backend/src/accounts/accounts.service.ts:439-471 | A create without a chart, then without a name or number, is refused; with all three it succeeds if and only if the chart exists and none of its accounts has the number, and says which of the two is wrong |
| AccountWrites.UpdateAnswers | backend/src/accounts/accounts.service.ts:479-558 | An update of an account that exists succeeds if and only if the chart it ends in exists and no other account of that chart has the number it ends with, and says which is wrong; other charts may use the same number |
| AccountWrites.CreateStores | backend/src/accounts/accounts.service.ts:442-449 | A new account has exactly the columns sent, and none for those left out |
| AccountWrites.CreateDerives | backend/src/accounts/accounts.service.ts:568-601 | Its consolidation columns are those of the account of the consolidation chart with its consolidation number, as the table is after the create; without one they are what was sent |
| AccountWrites.CreateMovesFollowers | backend/src/accounts/accounts.service.ts:472-475 | Of the other accounts exactly those mapped to a new chart account take its name and description |
| AccountWrites.UpdateStores | backend/src/accounts/accounts.service.ts:495-542 | A column sent is stored and one left out is kept; a self-reference follows its renumbering within the chart and nothing else moves a consolidation number |
| AccountWrites.UpdateDerives | backend/src/accounts/accounts.service.ts:568-601 | The consolidation columns after an update are those of the consolidation account the table then has, else what was sent or stored for an unchanged number; except exactly for an account mapped to the place in the chart it leaves itself, which takes its own old name |
| AccountWrites.UpdateMovesFollowers | backend/src/accounts/accounts.service.ts:516-543 | For every update: the other accounts mapped to the old or new number of an account that is then in the chart point at it, and no other account changes |
| AccountWrites.OwnOldNumberKeepsOldName | backend/src/accounts/accounts.service.ts:586-596 | A concrete account: renumbered from 512 to 600 and mapped to 512 with a name of its own sent, it stores its old name instead |
| AccountImport.FirstOccurrencesAreDistinct | backend/src/accounts/accounts.service.ts:844-850 | Deduplication keeps every number of the file once, and of each number the first row |
| AccountImport.ImportRowCorresponds | backend/src/accounts/accounts.service.ts:876-890 | One imported row saves the row its row-by-row meaning saves, fails exactly when it fails, and afterwards the tables still correspond and the preloaded map still agrees with the chart on every number of the file |
| AccountImport.WrittenRowCorresponds | backend/src/accounts/accounts.service.ts:876-890 | The same for the row the loop actually writes: an update of the account found, or a create |
| AccountImport.ResyncClosesGap | backend/src/accounts/accounts.service.ts:891-896 | One resync at the end, and only for an import into the consolidation chart, makes the tables equal |
| AccountImport.ApplyRowKeepsConsistent | backend/src/accounts/accounts.service.ts:876-890 | A row applied on its own keeps the invariant and adds at most its new account |
| AccountImport.ApplyRows | backend/src/accounts/accounts.service.ts:844-896 | Applying any number of rows keeps the invariant and leaves later rows' ids unused |
| AccountImport.ChartRowCorresponds | backend/src/accounts/accounts.service.ts:615-630 | A row of the consolidation chart saved without propagation differs from one saved with it by exactly one resync |
| ImportedTable.ImportStoresRows | backend/src/accounts/accounts.service.ts:844-897 | The table an import leaves: every row whose number is new has a new account with its columns, every account a row is about has them too or keeps its own when existing accounts are skipped, every other account keeps its own, and the consolidation columns are everywhere those of the consolidation account when there is one and otherwise the row's or the old ones |
| ImportedTable.ImportFailsExactly | backend/src/accounts/accounts.service.ts:844-897 | An import fails if and only if it has a row and its target chart does not exist |
| ImportedTable.WritingStores | backend/src/accounts/accounts.service.ts:876-890 | One row written on its own stores its number, name, description and consolidation number in the target chart, and moves exactly the accounts mapped to it |
| ImportedTable.OneMoreRow | backend/src/accounts/accounts.service.ts:875-890 | A further row keeps what the rows before it stored, whatever it makes follow |
| ImportSimulation.MeaningSimulates | backend/src/accounts/accounts.service.ts:875-890 | From any two tables that correspond, a row the loop writes is written alike by the row applied on its own with propagation, or fails with the same error, and a row the loop skips changes nothing there either |
| ImportSimulation.AppliedIsApplyRows | backend/src/accounts/accounts.service.ts:875-890 | From a consistent table, rows applied one after the other by that meaning are the rows applied with propagation |
| ImportSimulation.ErrorEndsRows | backend/src/accounts/accounts.service.ts:876-890 | The first row that fails decides the error of all rows |
| Tenants.Tenant.DeriveConsolidationFields | backend/src/accounts/accounts.service.ts:575-601 | The entity's derived fields as assigned step by step, also when the lookup asks for one number only |
| Tenants.Tenant.FollowConsolidationAccount | backend/src/accounts/accounts.service.ts:615-630 | The preloaded map forgets the old numbers and learns the new one; the other accounts are remapped only when propagating |
| Tenants.Tenant.RemapToConsolidationAccount | backend/src/accounts/consolidation.ts:212-247 | The remap statement, and its count of rewritten rows |
| Tenants.Tenant.ResyncFromChart | backend/src/accounts/consolidation.ts:174-204 | The resync statement, and its count of rewritten rows |
| Tenants.Tenant.SaveRow | backend/src/accounts/accounts.service.ts:461-471 | A save under the unique key and the chart reference; a violation writes nothing |
| Tenants.Tenant.SaveAndTell | backend/src/accounts/accounts.service.ts:550-565 | Rows, preloaded map and answer after a save and its followers |
| Tenants.Tenant.CreateAccount | backend/src/accounts/accounts.service.ts:429-477 | Rows, preloaded map and answer of a create, with every error |
| Tenants.Tenant.AssignFields | backend/src/accounts/accounts.service.ts:495-509 | A field the body leaves undefined keeps its value |
| Tenants.Tenant.UpdateAccount | backend/src/accounts/accounts.service.ts:487-566 | Rows, preloaded map and answer of an update, with every error |
| Tenants.Tenant.LockConsolidationChartId | backend/src/accounts/consolidation.ts:86-94 | The chart that holds the role, whichever row of the scan it is; none exactly when no chart holds it |
| Tenants.Tenant.CreateOne | backend/src/accounts/accounts.service.ts:423-427 | A create request keeps the tenant valid and leaves exactly the rows of its meaning, or none changed on an error; with the required values it is refused exactly for an unknown chart or a number another account of that chart has |
| Tenants.Tenant.UpdateOne | backend/src/accounts/accounts.service.ts:479-485 | The same for an update request, with the stored values for what is left out |
| Tenants.Tenant.DeleteOne | backend/src/accounts/accounts-delete.service.ts:45-85 | A delete removes exactly one unused account |
| Tenants.Tenant.Deduplicate | backend/src/accounts/accounts.service.ts:844-850 | The first row of each number, in file order |
| Tenants.Tenant.LoadByNumber | backend/src/accounts/accounts.service.ts:851-857 | The target chart's accounts by number, each as stored |
| Tenants.Tenant.CountUpdates | backend/src/accounts/accounts.service.ts:858-862 | The number of rows that find an account |
| Tenants.Tenant.Preload | backend/src/accounts/accounts.service.ts:868-875 | The preloaded map agrees with the chart on every number the file refers to |
| Tenants.Tenant.SaveImported | backend/src/accounts/accounts.service.ts:876-890 | One imported row saved without propagation, from the account as loaded before the loop |
| Tenants.Tenant.WriteRowOnce | backend/src/accounts/accounts.service.ts:876-890 | The row is saved to the account loaded at its number, or to a new one, and the preloaded map follows it; a violation changes neither |
| Tenants.Tenant.WriteNext | backend/src/accounts/accounts.service.ts:876-890 | A row that is not skipped keeps the correspondence with the rows applied one by one, or fails as its meaning fails |
| Tenants.Tenant.WriteOrSkip | backend/src/accounts/accounts.service.ts:876-890 | One turn of the loop keeps the correspondence and the count of rows written, or fails as the row's meaning fails |
| Tenants.Tenant.WriteRows | backend/src/accounts/accounts.service.ts:875-890 | After the loop the tables correspond to the rows applied one by one with propagation; an error is the first row's that fails; processed counts the rows not skipped |
| Tenants.Tenant.ImportRows | backend/src/accounts/accounts.service.ts:866-890 | With the map preloaded once, the loop leaves a table that corresponds to the rows applied one by one with propagation, or fails with their error |
| Tenants.Tenant.CommitImport | backend/src/accounts/accounts.service.ts:866-897 | The commit leaves the rows applied one by one with propagation, or nothing on an error, and processed is the true count |
| Tenants.Tenant.ImportCsv | backend/src/accounts/accounts.service.ts:844-897 | The import leaves the same accounts as its deduplicated rows applied one by one with propagation, and column by column what those rows store; it fails exactly for an unknown chart; a dry run changes nothing; inserted, updated and processed are the true counts |
| Charts.UpdatedChartKeepsRoles | backend/src/accounts/chart-of-accounts.service.ts:209-272 | A scope transition keeps charts well scoped, and takes the global default exactly from a chart that becomes a country's |
| Charts.SaveChartKeepsRoles | backend/src/accounts/chart-of-accounts.service.ts:151-207 | Saving a chart moves no role, and clears other defaults at most |
| Charts.AssignMovesRole | backend/src/accounts/chart-of-accounts.service.ts:394-426 | Giving a role takes it from its holder: exactly the given chart has it, and no other column of any chart changes |
| Charts.ClearTakesRole | backend/src/accounts/chart-of-accounts.service.ts:402-426 | Clearing a role leaves it without a holder exactly when the chart held it, and changes nothing else |
| Charts.DeleteDropsRole | backend/src/accounts/chart-of-accounts.service.ts:274-311 | A deleted chart takes its role with it, and no other |
| Charts.UpdateChartAnswers | backend/src/accounts/chart-of-accounts.service.ts:209-272 | An update of a chart is refused exactly for a country's chart without a two-letter country, a GLOBAL chart with a country or as a country's default, or a code another chart has |
| Charts.UpperIsExact | backend/src/accounts/chart-of-accounts.service.ts:225-241 | A country code is stored with the letters a to z raised and every other character as sent |
| Charts.UpdatedChartColumns | backend/src/accounts/chart-of-accounts.service.ts:209-249 | What each column of the chart becomes: only what was sent, the scope transition's own changes aside |
| Charts.UpdateChartStores | backend/src/accounts/chart-of-accounts.service.ts:151-156 | Of the other charts exactly those of a country whose default the chart becomes are its default no more |
| Charts.CreateChartAnswers | backend/src/accounts/chart-of-accounts.service.ts:158-207 | When a create of a chart is refused and with which error, and what it stores, ZZ standing for GLOBAL without a scope |
| Tenants.UpdatedChartRoles | backend/src/accounts/chart-of-accounts.service.ts:209-272 | An update of a chart never moves the consolidation role |
| Tenants.Tenant.AssignRole | backend/src/accounts/chart-of-accounts.service.ts:394-426 | The two role statements together move the role |
| Tenants.Tenant.ClearRole | backend/src/accounts/chart-of-accounts.service.ts:402-426 | The role is taken from this chart only |
| Tenants.Tenant.SetConsolidation | backend/src/accounts/chart-of-accounts.service.ts:354-363 | The role moves, every account is in line with the new chart, and the answer counts the rows rewritten and the accounts outside |
| Tenants.Tenant.ClearConsolidation | backend/src/accounts/chart-of-accounts.service.ts:365-374 | The role is gone; names already derived stay |
| Tenants.Tenant.SetGlobalDefault | backend/src/accounts/chart-of-accounts.service.ts:327-338 | Only a GLOBAL chart becomes the default of other countries |
| Tenants.Tenant.ClearGlobalDefault | backend/src/accounts/chart-of-accounts.service.ts:340-352 | The default is taken from this chart only |
| Tenants.Tenant.AssignScope | backend/src/accounts/chart-of-accounts.service.ts:220-233 | The scope transition of an update, with its country error |
| Tenants.Tenant.AssignChartFields | backend/src/accounts/chart-of-accounts.service.ts:217-249 | The fields of an update in the order they are assigned, with every error |
| Tenants.Tenant.UpdateChartRow | backend/src/accounts/chart-of-accounts.service.ts:209-272 | An update keeps the tenant valid and the consolidation chart where it is; a failing one changes nothing |
| Tenants.Tenant.CreateChartRow | backend/src/accounts/chart-of-accounts.service.ts:158-207 | The same for a create |
| Tenants.Tenant.SaveChartRow | backend/src/accounts/chart-of-accounts.service.ts:151-207 | The previous country default is cleared first, and the unique code refused with nothing changed |
| Tenants.Tenant.DeleteChart | backend/src/accounts/chart-of-accounts.service.ts:274-311 | An unused chart goes with its accounts; the others are untouched |
| TenantRuns.EveryRunKeepsAccountsInLine | backend/src/accounts/accounts.service.ts:423-630 | After any sequence of requests: each role has at most one holder, scope, country and defaults go together, no two accounts of a chart share a number, and every account whose consolidation number is an account number of the consolidation chart has exactly that account's name and description |
| TenantRuns.ServeKeepsValid | backend/src/accounts/chart-of-accounts.service.ts:274-426 | Every request, whatever its answer, keeps that invariant |
| TenantRuns.Handle | backend/src/accounts/accounts.service.ts:423-898 | The services' own step-by-step methods leave exactly the tables the runs are about |
| ConsolidationStatus.FilterAgreesWithLabel | backend/src/accounts/consolidation.ts:47-142 | The SQL status filter and the per-account label agree for every account of a page, the lookup being built from that page's numbers only; the label is InChart exactly when the consolidation chart has an account of the number, and missing exactly when the account has a number and the tenant no consolidation chart |
| ConsolidationStatus.ImpactCountsEveryOtherAccount | backend/src/accounts/chart-of-accounts.service.ts:377-391 | matched + outside + unmapped is the number of accounts in the other charts |
| ConsolidationStatus.OutsideCountsSumToImpact | backend/src/accounts/chart-of-accounts.service.ts:79-114 | The outside counts shown per chart sum to the impact's count |
| ConsolidationStatus.ImpactForetellsStatuses | backend/src/accounts/chart-of-accounts.service.ts:377-391 | The three impact counts of a chart are how many accounts of the other charts will have each status once it is the consolidation chart |
| ChartLocks.DerivedIsCurrent | backend/src/accounts/consolidation.ts:65-94 | In every interleaving an account write that has its locks derives from the chart that holds the role if and only if the holder, if any, is a chart its locking statement saw |
| ChartLocks.DerivedStaysCurrentUntilCommit | backend/src/accounts/accounts.service.ts:423-427 | Once it read the current role and holds one chart, no interleaving makes that wrong before it ends |
| ChartLocks.HeldLockFreezesRole | backend/src/accounts/chart-of-accounts.service.ts:394-426 | While a write holds a chart, no other transaction's step moves the role |
| ChartLocks.WithoutChartsTheRoleCanAppear | backend/src/accounts/consolidation.ts:65-94 | An exception is real: a run in which a write that found no chart to lock derives from none while a chart has become the consolidation chart |
| ChartLocks.HeldLocksMissANewChart | backend/src/accounts/consolidation.ts:65-94 | The other exception: a run in which a write that holds a chart derives from none while the role is at a chart its locking statement never saw |
| ChartLocks.WaitsExactlyWhenBlocked | backend/src/accounts/consolidation.ts:65-84 | A transaction cannot take its next step, a lock or its writes, if and only if it waits for another |
| ChartLocks.CircleNeedsUnseenWrite | backend/src/accounts/chart-of-accounts.service.ts:394-426 | In every reachable state, transactions that wait for each other in a circle, at a lock or at a row to write, include one that has its locks and is about to write a chart its locking statement did not see, with a smaller id than every chart it holds |
| ChartLocks.UnseenWriteClosesCircle | backend/src/accounts/chart-of-accounts.service.ts:394-426 | From every reachable state with such a transaction, whatever else is open, a circle can be reached: the condition is exact |
| ChartLocks.UnseenWriteIsReachable | backend/src/accounts/chart-of-accounts.service.ts:394-426 | A run to such a state: a role change finds the role at a chart created since it began |
| ChartLocks.CircularWaitIsReachable | backend/src/accounts/chart-of-accounts.service.ts:394-426 | And the run to the circle: an account write holds the new chart and waits for the old one |
| ChartLocks.NoCircularWait | backend/src/accounts/consolidation.ts:65-84 | Transactions never wait for each other in a circle as long as each that has its locks writes only charts its locking statement saw |
| ChartLocks.UnseenIsLower | backend/src/accounts/consolidation.ts:65-84 | Who holds a chart another transaction did not see has still to lock every chart that one holds, all of them higher |
| ChartLocks.WritesWhatChanges | backend/src/accounts/chart-of-accounts.service.ts:394-426 | What an acting transaction is taken to write is exactly what it changes: the charts that gain or lose the role, the chart deleted, the charts an update names |
| ChartLocks.StepKeepsInv | backend/src/accounts/consolidation.ts:65-94 | Every step keeps: conflicting locks are never held together, a write knows the role of every row it holds, and of two transactions the later one saw every chart of the earlier one that still exists |
| StableJson.StableJsonIsCanonical | backend/src/ai/ai-chat-orchestrator.service.ts:569-580 | Two JSON values print the same text if and only if they are equal up to the order of object keys |
| StableJson.PrefixFree | backend/src/ai/ai-chat-orchestrator.service.ts:569-580 | A printed value ends where it ends: no text continues two different values |
| StableJson.AscendingIsUnique | backend/src/ai/ai-chat-orchestrator.service.ts:577 | There is one ascending arrangement of the same keys, so sorting forgets their order and nothing else |
| StableJson.SortSorts | backend/src/ai/ai-chat-orchestrator.service.ts:577 | Sorting keys orders them and loses none |
| StableJson.QuotesArePrefixFree | backend/src/ai/ai-chat-orchestrator.service.ts:570-572 | The quoted form of a string, escapes, surrogate pairs and lone surrogates included, determines the string |
| StableJson.NumbersArePrefixFree | backend/src/ai/ai-chat-orchestrator.service.ts:570-572 | A number's text is not cut short by what may follow it |
| StableJson.ShapeTestIsExact | backend/src/ai/ai-chat-orchestrator.service.ts:798-805 | The shape test of a plan accepts exactly inputs that agree on everything but `ref` |
| StableJson.EquivalentIsReflexive | backend/src/ai/ai-chat-orchestrator.service.ts:569-580 | A well-formed value is equal to itself up to key order |
| ProviderMessages.PushKeepsPairing | backend/src/ai/ai-chat-orchestrator.service.ts:2246-2301 | A message that is no tool result keeps the pairing |
| ProviderMessages.AnswerKeepsPairing | backend/src/ai/ai-chat-orchestrator.service.ts:2286-2300 | A tool result that answers a call still open keeps it, and closes that call |
| ProviderMessages.CallAndAnswerKeepPairing | backend/src/ai/ai-chat-orchestrator.service.ts:2688-2988 | A call and its result right after keep it |
| ProviderMessages.SameShapeKeepsPairing | backend/src/ai/ai-context-budget.helper.ts:203-232 | Replacing contents only keeps it |
| ProviderMessages.GoingOnLeavesUnanswered | backend/src/ai/ai-chat-orchestrator.service.ts:2470-3158 | A conversation that goes on from another leaves exactly the same calls unanswered: every call added is answered right after its carrier |
| ProviderMessages.GoingOnComposes | backend/src/ai/ai-chat-orchestrator.service.ts:2470-3158 | What goes on from a conversation that went on from another goes on from that one |
| HistoryReplay.ReplayIsWellPaired | backend/src/ai/ai-chat-orchestrator.service.ts:2246-2301 | For any persisted history each replayed tool message stands in the run of tool messages right after an assistant message that carries its call id, and no call is answered twice |
| HistoryReplay.ReplayedCallIsAnswered | backend/src/ai/ai-chat-orchestrator.service.ts:2246-2301 | A replayed call is answered if and only if a tool row names it before the next user or assistant row of the history |
| HistoryReplay.ReplayLeavesUnanswered | backend/src/ai/ai-chat-orchestrator.service.ts:2246-2301 | A replayed request leaves a call unanswered if and only if some persisted assistant row has a well-formed call that no tool row names in time |
| HistoryReplay.Replay | backend/src/ai/ai-chat-orchestrator.service.ts:2246-2301 | The replay loop with its set of open calls builds that history |
| HistoryReplay.RowIsReplayed | backend/src/ai/ai-chat-orchestrator.service.ts:2246-2301 | What each further row adds: a user row its text; an assistant row its text with its calls, or only its text unless blank when its reasoning is missing; a tool row its result exactly when it names an open call; any other row nothing |
| HistoryReplay.OpenIsExact | backend/src/ai/ai-chat-orchestrator.service.ts:2246-2301 | A tool row may answer exactly the calls the last assistant row offers, with no user row and no tool row naming them since |
| HistoryReplay.PersistedCallIsReplayed | backend/src/ai/ai-chat-orchestrator.service.ts:2262-2300 | After any history, a persisted call whose id and name are not blank and whose arguments parse comes back, with blanks trimmed from its id and name, followed by its result |
| HistoryReplay.SanitizeReplayToolCalls | backend/src/ai/ai-chat-orchestrator.service.ts:1579-1606 | Exactly the well-formed calls, in order |
| HistoryReplay.SanitizedHolds | backend/src/ai/ai-chat-orchestrator.service.ts:1579-1606 | A call is replayed of an assistant row if and only if it stands for a persisted one: id and name without the space around them and not blank, arguments that parse |
| HistoryReplay.SanitizedInOrder | backend/src/ai/ai-chat-orchestrator.service.ts:1585-1603 | The calls come in the order they were persisted in |
| ContextBudget.EstimateRequestBreakdown | backend/src/ai/ai-context-budget.helper.ts:86-121 | The parts per role sum to the total |
| ContextBudget.CompactOne | backend/src/ai/ai-context-budget.helper.ts:245-272 | One message is replaced exactly when eligible and smaller, and the running size moves with it |
| ContextBudget.CompactPrefix | backend/src/ai/ai-context-budget.helper.ts:233-276 | The running size is the size of the messages it stands for, and the pass stops at the first point within budget |
| ContextBudget.CompactBoth | backend/src/ai/ai-context-budget.helper.ts:278-354 | Tool results up to the first fit, then assistant texts up to the first fit, with true counts and size |
| ContextBudget.PrepareAiProviderMessages | backend/src/ai/ai-context-budget.helper.ts:278-354 | The reported sizes are those of the messages returned; within budget nothing changes; protected, user and reasoning messages are untouched |
| ContextBudget.TextsOnlyAfterTools | backend/src/ai/ai-context-budget.helper.ts:310-336 | Assistant texts are replaced only when replacing every tool result that shrinks was not enough |
| ContextBudget.OverBudgetMeansNothingFits | backend/src/ai/ai-context-budget.helper.ts:278-354 | A result still over budget means that no choice of old tool results and assistant texts without reasoning, each replaced by its summary or note, would be smaller |
| ContextBudget.CompactionIsChoice | backend/src/ai/ai-context-budget.helper.ts:203-276 | What the compaction replaces is an old tool result or assistant text without reasoning, by its summary or note, and only when that is smaller |
| ContextBudget.EveryPartCounts | backend/src/ai/ai-context-budget.helper.ts:61-84 | Role, content, reasoning, call id and calls each count towards a message's size, once |
| ContextBudget.CompactionKeepsPairing | backend/src/ai/ai-context-budget.helper.ts:203-276 | Compaction keeps the messages well paired |
| BulkCoverage.NormalizeBulkRefs | backend/src/ai/ai-chat-orchestrator.service.ts:542-562 | Distinct references, exactly those given, in order of first appearance |
| BulkCoverage.FindBulkCoverageIssue | backend/src/ai/ai-chat-orchestrator.service.ts:672-719 | An issue if and only if some target set is incomplete: a reference of it is neither covered, failed nor excluded, or fewer are than expected (each reason counted on its own), and it is explicit, or a reference of it is covered, or that is not required; it is the last such set, with exactly its unhandled references as missing |
| BulkCoverage.IssueOfIsExact | backend/src/ai/ai-chat-orchestrator.service.ts:680-716 | The filters and counts over one set find an issue exactly when the set is incomplete, and report its references by what became of them, in order |
| BulkCoverage.NewestIssueIsUnique | backend/src/ai/ai-chat-orchestrator.service.ts:672-719 | There is one newest issue, since a set and its coverage determine what is reported of it |
| BulkCoverage.AutoplanIsExact | backend/src/ai/ai-chat-orchestrator.service.ts:728-763 | An auto-plan is built if and only if more than one reference is missing and the call has a `ref` that names no reference foreign to the set; it has exactly one operation per missing reference, in their order and numbered from one, with the same tool and an input equal but for `ref`, under the set's label |
| BulkCoverage.AugmentedPlanIsExact | backend/src/ai/ai-chat-orchestrator.service.ts:765-825 | A plan is augmented if and only if it has fewer operations than missing references and they are sound, expected and alike but for `ref`; it then has exactly one operation per missing reference, and keeps the summary, the label and every other field the model gave |
| BulkCoverage.PreviewsCover | backend/src/ai/ai-chat-orchestrator.service.ts:2935-2951 | Exactly the references of the previews join the covered ones, and those of their entity type |
| BulkCoverage.AbsorbingIsExact | backend/src/ai/ai-chat-orchestrator.service.ts:2921-2951 | After a tool result a reference is handled if and only if it was before or the result previews it, reports it failed or excludes it |
| BulkCoverage.PlanClosesGap | backend/src/ai/ai-chat-orchestrator.service.ts:2921-2951 | When each operation yields a preview of its reference or an error naming it, every reference of the set is handled |
| SearchAllProgress.State.Record | backend/src/ai/ai-chat-orchestrator.service.ts:304-349 | One search's items, counters and intervention |
| SearchAllProgress.EveryCallIsCounted | backend/src/ai/ai-chat-orchestrator.service.ts:304-349 | Over any calls the counters count them, and repairs never exceed their limit |
| SearchAllProgress.RunIsExact | backend/src/ai/ai-chat-orchestrator.service.ts:304-349 | Over any calls: the no-progress counter is the longest run of calls without a new item at the end, since the one repair when there was one, and the items seen are those the calls returned |
| SearchAllProgress.ActionIsExact | backend/src/ai/ai-chat-orchestrator.service.ts:328-346 | A call is acted on if and only if it ends a run of at least the threshold of calls without a new item since the repair; the first time with the repair, then by failing the turn |
| SearchAllProgress.FailNeedsTwoRuns | backend/src/ai/ai-chat-orchestrator.service.ts:304-349 | A turn fails for lack of progress only after one repair and two whole runs without a new item |
| ChatTurn.Turn.Run | backend/src/ai/ai-chat-orchestrator.service.ts:2434-3204 | For every provider the turn goes from request to request exactly as the rounds say (what is sent, what the answer's calls or text lead to, every counter) and ends as they do; each request is well paired and goes on from the conversation and from the request before (no message lost, moved or changed but for a compacted content, every call added answered right after), there are at most the maximum, and a guarded turn that ends done without a preview never ends with a text the unsafe-write detector flags, nor, when the newest incomplete target set leaves references unhandled, with one that neither addresses exactly those nor is a fallback; a text of the model's own is replaced only once its repairs are used up |
| ChatTurn.AnswerHistory | backend/src/ai/ai-chat-orchestrator.service.ts:2246-3204 | End to end: whatever was persisted and whatever the provider answers, every request of the turn is well paired, and leaves a call unanswered exactly where the persisted history does; the turn starts from the replayed history with every counter at zero, and goes through its rounds |
| ChatRuns.EndIsExact | backend/src/ai/ai-chat-orchestrator.service.ts:2470-3205 | A turn is aborted if and only if the user interrupts it before, during or after a request; the provider failed if and only if its last answer did; only an answer without calls ends it done, only one with calls for lack of progress |
| ChatRuns.OthersGoOn | backend/src/ai/ai-chat-orchestrator.service.ts:2470-3158 | Every answer but the last was one the turn goes on from, with no interruption before or after it |
| ChatRuns.RepairsAreBounded | backend/src/ai/ai-chat-orchestrator.service.ts:3036-3158 | Over any run, each text without calls that does not end the turn uses up exactly one repair, none is ever given beyond its limit, so at most nine are asked again, and none at all without guarded writes |
| ChatRuns.NothingIsForgotten | backend/src/ai/ai-chat-orchestrator.service.ts:2470-3158 | Over any run no call, preview, target set or search item is forgotten, and a reference once handled stays handled for every target set |
| ChatRuns.RepeatedCallsAreNotRun | backend/src/ai/ai-chat-orchestrator.service.ts:2644-2676 | A response with the names and arguments of the one before it is not run: it adds no call, preview or coverage but the instruction, which is given at most twice in a row |
| ChatRuns.FourthRepeatEnds | backend/src/ai/ai-chat-orchestrator.service.ts:2644-2676 | A model that gives the same calls four times in a row ends the turn, unless a search asked for another way |
| ChatRuns.ResponseIsExact | backend/src/ai/ai-chat-orchestrator.service.ts:2676-3034 | The calls of a response are run with its text, or without it when writes are guarded and it holds raw markup; the first search without progress is told to the model and lets the calls be repeated, the next ends the turn |
| ChatRuns.FinalKeepsProgress | backend/src/ai/ai-chat-orchestrator.service.ts:3036-3158 | A text without calls only adds messages, and when it is asked for again the model may repeat its calls |
| ChatRuns.DispatchIsExact | backend/src/ai/ai-chat-orchestrator.service.ts:2800-2849 | Each call of a response is dispatched as itself, unless writes are guarded and the newest target set still incomplete when its turn comes lets a plan stand for it: several references missing for a call that names one, or more than its own plan's operations |
| ChatTurn.Turn.FinalTextIsSafe | backend/src/ai/ai-chat-orchestrator.service.ts:3036-3158 | Whatever the provider answered, a final response that is not asked again ends in a text that is safe for what the turn did, and is the model's own unless its repairs are used up |
| ChatTurn.Turn.IncompleteIsAskedFirst | backend/src/ai/ai-chat-orchestrator.service.ts:3047-3069 | A text that leaves missing references unaddressed is asked for again twice, before any other repair; after that the fallback that names them takes its place |
| ChatTurn.Turn.BlankTextIsAskedAgain | backend/src/ai/ai-chat-orchestrator.service.ts:3071-3106 | A blank text without a preview is asked for again twice, with another instruction after a tool call, and then accepted |
| ChatTurn.Turn.UnplannedStepsAreAskedOnce | backend/src/ai/ai-chat-orchestrator.service.ts:3107-3130 | One preview without a plan and a text of several steps is asked for again, once |
| ChatTurn.Turn.FlaggedTextIsAskedAgain | backend/src/ai/ai-chat-orchestrator.service.ts:3132-3158 | A flagged text without a preview is asked for again twice and then replaced |
| ChatTurn.Turn.OtherTextsEndTheTurn | backend/src/ai/ai-chat-orchestrator.service.ts:3036-3158 | Any other text, and every text of a turn that is not guarded, ends the turn as it is |
| ChatTurn.Turn.Iterate | backend/src/ai/ai-chat-orchestrator.service.ts:2470-3158 | One round sends exactly one request, leads to exactly the state its answer asks for, and ends the turn only as `Run` promises |
| ChatTurn.Turn.CallProvider | backend/src/ai/ai-chat-orchestrator.service.ts:2476-2500 | What is sent is the conversation, greedily compacted exactly when it is over budget, and still well paired |
| ChatTurn.Turn.HandleToolCalls | backend/src/ai/ai-chat-orchestrator.service.ts:2636-3034 | Calls that repeat the previous ones are not run; others are all run, in order, each with its result right after, and a search without progress asks for another way or ends the turn; whatever is dispatched is the plan the newest issue asks for at that moment, or the call |
| ChatTurn.Turn.HandleRepeat | backend/src/ai/ai-chat-orchestrator.service.ts:2646-2675 | A repeat is pointed out while its repairs last, and then ends the turn |
| ToolCallSignature.SignatureTellsCalls | backend/src/ai/ai-chat-orchestrator.service.ts:245-249 | For calls whose names and arguments hold no separator character, two responses have one signature if and only if they have the same names and arguments in the same order |
| ToolCallSignature.SignatureIsAmbiguousExactly | backend/src/ai/ai-chat-orchestrator.service.ts:245-249 | Calls are determined by their signature if and only if there are none, or one without NUL in its name and arguments |
| Trimming.TrimIsExact | backend/src/ai/ai-chat-orchestrator.service.ts:1220-1226 | Trimming drops exactly the space around a text, and leaves nothing exactly of a blank one |
| ChatTurn.Turn.HandleNewCalls | backend/src/ai/ai-chat-orchestrator.service.ts:2684-3034 | Messages, counts, coverage and target sets after the calls of one response |
| ChatTurn.Turn.ExecuteCalls | backend/src/ai/ai-chat-orchestrator.service.ts:2689-2999 | The calls one after the other, each dispatched for the coverage its predecessors left, the response's text going with the first |
| ChatTurn.Turn.ExecuteCall | backend/src/ai/ai-chat-orchestrator.service.ts:2688-2988 | A call becomes its carrier and its result, side by side, dispatched as the plan its newest incomplete target set asks for or as itself; one without a name or with invalid arguments becomes plain text and runs nothing; only the first search without progress is noted |
| ChatTurn.Turn.CallsOnlyAdd | backend/src/ai/ai-chat-orchestrator.service.ts:2689-2999 | Running calls only ever adds messages, at least one for each, and each call added is answered right after |
| ChatTurn.Turn.CallAddsExactly | backend/src/ai/ai-chat-orchestrator.service.ts:2688-2988 | What one call adds: its carrier and the result of what was dispatched, side by side, with the result's previews, targets and coverage, exactly when it has a name and arguments that parse; otherwise plain text and nothing else |
| ChatTurn.Turn.DispatchCall | backend/src/ai/ai-chat-orchestrator.service.ts:2851-2973 | What was dispatched is what is answered, and coverage absorbs its outcome |
| ChatTurn.Turn.PlanFor | backend/src/ai/ai-chat-orchestrator.service.ts:2800-2849 | The plan built in place of a call is the one the newest incomplete target set asks for, the conversation's own set included; none without guarded writes |
| ChatTurn.PlanStandsForMissing | backend/src/ai/ai-chat-orchestrator.service.ts:2818-2848 | A plan that stands for a call has exactly one operation for each missing reference of the newest issue, with the call's tool and input but for `ref`, or those of the model's own plan |
| ChatTurn.PlanIsBuiltExactly | backend/src/ai/ai-chat-orchestrator.service.ts:2800-2849 | A plan stands for a call if and only if writes are guarded and the plan tool is among them, the arguments are an object, and the newest incomplete target set (the conversation's own included) leaves more references missing than the call plans for in operations that are alike, or several for a call that names one reference of the set |
| ChatTurn.Turn.Absorb | backend/src/ai/ai-chat-orchestrator.service.ts:2921-2951 | Coverage, target sets and preview count after a result |
| ChatTurn.Turn.FinalResponse | backend/src/ai/ai-chat-orchestrator.service.ts:3036-3158 | The first repair the response needs and may still get is asked for and counted, in the order coverage, blank text, unplanned steps, unsafe text; otherwise the turn ends |
| ChatTurn.Turn.Conclude | backend/src/ai/ai-chat-orchestrator.service.ts:3036-3158 | A final response only adds messages without calls, and ends the turn with a safe text or not at all |
| ChatTurn.Turn.CheckCoverage | backend/src/ai/ai-chat-orchestrator.service.ts:3036-3069 | Missing references the text leaves out are asked for, and told by the fallback once the repairs are used up |
| ChatTurn.Turn.AskWhenEmpty | backend/src/ai/ai-chat-orchestrator.service.ts:3071-3106 | A blank text without a preview is asked for again, with a different instruction after a tool call |
| ChatTurn.Turn.AskForPreviews | backend/src/ai/ai-chat-orchestrator.service.ts:3108-3158 | Unplanned steps and unsafe texts are asked again, and an unsafe text is replaced once its repairs are used up |
| ChatTurn.Turn.AskAgain | backend/src/ai/ai-chat-orchestrator.service.ts:3050-3066 | The model's text and the instruction join the messages, and a repeated call is allowed again |
| SpecScheduler.ExclusiveSpecsRunAlone | backend/scripts/run-ci-tests.js:320-334 | Over all interleavings: while an exclusive spec runs, no database spec and no other exclusive spec runs, and no database spec starts before the last exclusive one has ended |
| SpecScheduler.EveryRunRunsEachSpecOnce | backend/scripts/run-ci-tests.js:298-343 | A run that can go no further has emptied every queue, and each spec ran exactly as often as listed, as its kind |
| SpecScheduler.SomeStepIsPossible | backend/scripts/run-ci-tests.js:320-343 | No run goes on for ever, and as long as a worker has not finished some step is possible: nobody waits for ever on the exclusive phase |
| SpecScheduler.StepKeepsInv | backend/scripts/run-ci-tests.js:298-343 | Every step keeps what each worker may be doing |
| SpecScheduler.StepConserves | backend/scripts/run-ci-tests.js:298-343 | A step moves a spec between queue, worker and results, and loses or doubles none |
| SpecScheduler.StepAdvances | backend/scripts/run-ci-tests.js:320-343 | Each step takes some of the work ahead away |
| SpecRuns.Schedule.constructor | backend/scripts/run-ci-tests.js:340-342 | One worker per lane and as many more as jobs allow: max(jobs, lanes) in all, so never more specs at once |
| SpecRuns.Schedule.Starts | backend/scripts/run-ci-tests.js:320-342 | A worker's first turn |
| SpecRuns.Schedule.Record | backend/scripts/run-ci-tests.js:307-318 | A spec that ended joins the results, and its lane's count stays right |
| SpecRuns.Schedule.EndsSpec | backend/scripts/run-ci-tests.js:307-338 | A worker records its spec and goes on |
| SpecRuns.Schedule.Wakes | backend/scripts/run-ci-tests.js:331-332 | A waiting lane goes on once the exclusive phase has ended |
| SpecRuns.Schedule.RunAll | backend/scripts/run-ci-tests.js:340-342 | Whichever worker goes on next each time, the run ends, with every spec run exactly as often as listed |
| SpecRuns.LaneCountIsExact | backend/scripts/run-ci-tests.js:311-316 | A lane's count is the number of database specs among the results that ran on it |
| SpecCount.FilterSharesOut | backend/scripts/run-ci-tests.js:380-381 | A filter and its complement share out the list, duplicates included |
| SpecCount.QueuesShareOut | backend/scripts/run-ci-tests.js:380-384 | No spec is lost or put in two queues |
| SpecCount.QueuesHold | backend/scripts/run-ci-tests.js:380-384 | Each queue holds exactly the specs of its kind: unit without the database, exclusive with a reason to run alone, as often as listed |
| SpecCount.CheckIsExact | backend/scripts/run-ci-tests.js:408-417 | Whatever the scheduler did with the kept specs, the closing check passes if and only if each ran exactly once and none was listed twice |
| SpecCount.EveryKeptSpecRuns | backend/scripts/run-ci-tests.js:370-417 | End to end, the specs that ran are those kept after leaving the races out, so the check fails only on a spec discovered twice |
| SpecCount.EverySpecRunsAsItsKind | backend/scripts/run-ci-tests.js:370-417 | End to end, each discovered spec runs as its kind and as often as listed, never as another kind, and the race specs not at all when they are refused |
| SpecCount.EveryResultIsCounted | backend/scripts/run-ci-tests.js:408-410 | Every result is of one of the three kinds counted |
| SpecCount.DistinctHasFullSet | backend/scripts/run-ci-tests.js:409 | Comparing the number of different files with the number of results detects every repetition |
| ExclusiveSpecs.ExclusiveReason | backend/scripts/run-ci-tests.js:176-199 | Terminates on any finite import graph, cycles included; null if and only if no file reachable from the spec through imports into test folders matches, an import resolving to its first candidate that is a file; otherwise what the first matching pattern matched in a reachable file |
| ExclusiveSpecs.PushImports | backend/scripts/run-ci-tests.js:192-196 | Every helper the file imports is pending afterwards, and only reachable ones |
| ExclusiveSpecs.FirstFileIsFirst | backend/scripts/run-ci-tests.js:192-196 | An import resolves to a path if and only if it is a candidate that is a file and none tried before it is |
| ExclusiveSpecs.ClosedHoldsChain | backend/scripts/run-ci-tests.js:176-199 | What is closed under imports and holds the spec holds every reachable file |
| TokenRefresh.OneFlightPerSession | frontend/src/api.ts:118-166 | In every reachable state at most one unfinished flight belongs to the current generation, it is the one callers join, and no two flights ended sessions of the same generation |
| TokenRefresh.StaleFlightTouchesNothing | frontend/src/api.ts:118-166 | A flight of an older generation never writes the token, never bumps the generation and never clears a newer flight's slot |
| TokenRefresh.OutcomeTellsSession | frontend/src/api.ts:71-150 | `refreshed` keeps the generation and stores the new token; `ended` clears the session and bumps by one, exactly when no token was held or nobody listens, and more otherwise; `unavailable` comes after 4 posts and changes nothing; `superseded` changes nothing |
| TokenRefresh.FailureIsExact | frontend/src/api.ts:98-147 | A failed post ends the session if and only if the flight is of the current generation and the status is a 4xx other than 408 and 429; after any other failure the session is as it was, and the flight waits what a 429 asks for, or 1, 3, 8 seconds, and is unavailable after the fourth post |
| TokenRefresh.AnswerIsExact | frontend/src/api.ts:82-136 | An answer for the current generation ends the session exactly without a token, without a finite lifetime, or after the idle deadline; otherwise its token, lifetime and idle time are stored; for another generation it changes nothing |
| TokenRefresh.WakingIsExact | frontend/src/api.ts:123-136 | After its wait a flight posts once more, unless its session is over or idle by then |
| TokenRefresh.RequestIsExact | frontend/src/api.ts:118-166 | A request joins the flight of the current generation, or starts one that posts unless the session is idle |
| TokenRefresh.LoginStartsAnew | frontend/src/auth/AuthContext.tsx:241-258 | After a login every flight on its way is of an earlier session, and the new one is idle exactly from its activity plus the given time on |
| TokenRefresh.ClearLeavesNoSession | frontend/src/auth/AuthContext.tsx:160-172 | After a clear there is no token and every flight on its way is of an earlier session |
| TokenRefresh.EndedCanBumpTwice | frontend/src/api.ts:71-150 | With one listener a login and a refused refresh take the generation from 0 to 3, so the flight that ended generation 1 skipped generation 2 |
| TokenRefresh.FlightIsBounded | frontend/src/api.ts:118-150 | A flight makes at most 4 posts with at most 3 waits, each between 0 and 60000 ms |
| TokenRefresh.FlightComesToAnEnd | frontend/src/api.ts:118-150 | Every step of a flight brings it nearer its end, which is at most 8 steps away |
| TokenRefresh.UnfinishedFlightGoesOn | frontend/src/api.ts:118-162 | A flight that has not finished can always go on |
| TokenRefresh.OutcomeIsFinal | frontend/src/api.ts:118-150 | A flight has one outcome, whatever follows |
| TokenRefresh.NoSignInAfterClear | frontend/src/api.ts:118-137 | After a clear, until the next login or request for a refresh, no late answer puts a token back |
| TokenRefresh.RetryDelay | frontend/src/api.ts:107-116 | Between 0 and 60000 ms; a wait asked for is kept up to the ceiling and never overrun; otherwise later attempts wait longer |
| TokenRefresh.StepKeepsInv | frontend/src/api.ts:49-166 | Every step keeps the single flight, the bounds and one end per generation |
| RefreshClient.Client.ClearAuthSession | frontend/src/api.ts:71-80 | The session is cleared, and each listener clears it once more when it held a token |
| RefreshClient.Client.ApplyRefreshResponse | frontend/src/api.ts:82-96 | An answer without a token or a finite lifetime, or after the idle deadline, ends the session; any other is stored |
| RefreshClient.Client.RequestTokenRefresh | frontend/src/api.ts:156-166 | Joins the flight of the current generation or starts one; the caller always awaits a flight of the generation it asked in |
| RefreshClient.Client.OnAnswer | frontend/src/api.ts:131-136 | An answer counts only for the session it was asked for |
| RefreshClient.Client.OnFailure | frontend/src/api.ts:137-147 | Superseded, refused, out of attempts or waiting, in this order |
| RefreshClient.Client.OnTimer | frontend/src/api.ts:123-147 | The next attempt |
| RefreshClient.Client.OnFinally | frontend/src/api.ts:159-161 | The slot is cleared only by its own flight |
| RefreshClient.Client.LogIn | frontend/src/auth/AuthContext.tsx:241-258 | The session state after a login |

## Left out

- Integer width: account numbers are unbounded here; the database refuses one out of range before anything is written.
- Native name, nature, status, lifecycle and audit columns of accounts, and the audit rows: no rule of the consolidation depends on them.
- Tenants: one tenant only, since every statement is limited to the current tenant.
- Reading and validating the CSV file and finding its target chart: the import starts from normalised rows and a target.
- Ids of new rows are parameters, taken to be unused, as fresh uuids are.
- What refers to an account or a chart (companies, budget lines) is one boolean.
- Tenants.Tenant.SetGlobalDefault: assigning the new default to companies without a chart is not modelled, because companies are not part of this model.
- Tenants.Tenant.AssignChartFields: upper-cases ASCII letters of countries only, because case mapping of other letters is outside the language.
- Uniqueness of a country's default chart: an update can move a default chart to another country without clearing that country's holder.
- Overlapping account writes by two transactions: shared chart locks do not order them, so requests on one tenant are taken one after the other; role changes against account writes are in `ChartLocks`.
- ChartLocks.CircleNeedsUnseenWrite: a transaction takes all its row locks for writing in one step and commits with it, so waits between two single statements of one transaction are not part of it.
- A chart created as its country's default, which takes the row lock of the default before it in an UPDATE of its own, and the share locks of foreign-key checks are not part of `ChartLocks`.
- What the database does about a deadlock (it fails one of the transactions), and any retry.
- Texts: the detectors, the language, the instructions to the model, the token estimate and the summaries of tool results are arbitrary functions.
- ChatTurn.Turn.Run: that the write fallback itself is not flagged by the detector is a condition of the claim, because the detector is arbitrary; the path that ends in an approval is not modelled.
- Images in messages, debug traces, streaming events, usage accounting and persistence of messages.
- ContextBudget.PrepareAiProviderMessages: takes eight tenths of the window exactly, where the source multiplies in floating point.
- StableJson.StableJsonIsCanonical: a number is its text, so the rounding of numbers and values JSON has no text for (NaN, undefined) are not modelled.
- Text of `operation_id` and of labels in plans: given by a function.
- Finding spec files, their sizes and imports on disk, preparing the lanes' databases, compiling and spawning processes, and the times printed.
- SpecCount.EveryKeptSpecRuns: takes the queues in any order, since largest-first only orders them.
- TokenRefresh.RetryDelay: takes seconds and dates in whole milliseconds, and a header that is neither as its own case, because date parsing is the browser's.
- Listeners that request a refresh while they are told of a session's end, and what callers do with an outcome in `AuthContext`.
