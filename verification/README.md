# Verified model of the money core

A neighbourhood administration (an RT) keeps its cash here. Officers collect small household
contributions ("jimpitan") in collection sessions; treasurers enter income and expenses; expenses
above a threshold need approvals; everything ends in a ledger of rows per cash account. This project
models the three modules that share that state, finance, approvals and jimpitan, as one transition
system over one database, and proves what every call keeps and what every run leads to. Four smaller
parts of the same repository are modelled beside it: summaries and pages of a checklist, slugs,
refresh sessions, and the mobile walk through a checklist.

`dafny verify dfyconfig.toml` checks everything.

## How it is organised

- `Tables` holds one record per row and one map per table. `FinanceOps`, `ApprovalOps` and
  `CollectionOps` define each service call as one atomic step on the database: the service's guards,
  then the repository's transaction, with every refusal in the order the code checks it. A refused
  step leaves the state alone, as a rollback does. `System` puts the steps together: `Step`, `Run`
  over any sequence of calls, `Reachable` from the empty database.
- `LedgerLaws`, `FinanceLaws`, `ApprovalLaws`, `CollectionLaws` and `SystemLaws` prove the invariant
  and that state only moves forward. `Theorems`, `ExactlyOnce` and `CollectionTheorems` state the
  results over reachable states and all continuations.
- `FinanceEffects`, `CollectionPosting`, `ApprovalEffects`, `CollectionEffects`, `PolicyEffects`,
  `CallEffects` and `InterleavedEffects` say again what each call does, in terms of the tables alone:
  the exact condition under which it succeeds, with every column it looks at; each refusal with its own
  condition; and the whole state it leaves. The few functions of the steps that occur there (the next
  ledger row, the paid sum, the policy as it is read) are given by lemmas of their own.
  `PostingOrigins`, `DecidedByAsked` and `ItemWasEntered` carry these conditions over runs: behind a
  posted transaction, a given approval and a stored item there is the call that was admitted.
- `Concurrency` puts posting and draft calls among other calls: retries, conflicts, rereads.
  `Interleaving` splits the collection calls into unlocked reads and guarded writes; `RaceLaws` says
  exactly which of these writes break what holds for atomic calls, and `ArchiveRaces` runs archiving in
  two steps among them. `CallTheorems` says what single calls mean for the calls after them. `Races`,
  `Counterexamples` and `ApprovalCases` hold reachable states at which plausible properties fail.
- `Database`, `FinanceRepository`, `ApprovalsRepository`, `JimpitanRepository` and
  `SerializableRetry` are classes whose methods change the tables statement by statement, loops
  included. Every call (not the helpers that run inside one) finds the database valid, which is the
  invariant of the system, and leaves it valid and only moved forward; it changes no table but those
  its frame names; and it is the atomic step the laws are about (`CallLaws` gives those laws call by
  call). So the results about steps and runs hold for any sequence of calls on one database object.
- `Policy`, `Summary` with `SummaryFigures`, `Slug` with `SlugWords`, `Workflow`, and `RefreshSession`
  with `RefreshExpiry`, `TokenText` and `RefreshReplay`, are self-contained.

Amounts are integers in cents. A DraftRefusal, PostRefusal or similar function lists the reasons a
call may be refused for, in order.

## Where the code differs from what one would expect

The code is modelled as it is. These properties do not hold of it; each has a reachable witness and
the exact condition under which it holds.

- **A stored idempotency key is write-once.** It is not: the checks treat the empty string as no key,
  and the write uses `??`, which does not (finance repository, lines 593 and 959). Posting with the
  empty string replaces any stored key, after which the request that had used the old key can create
  a second transaction (`KeyedDraftTwice`); and a draft stored with the empty string takes over
  whatever key it is posted with (`EmptyKeyIsReplaced`). A key changes exactly by a posting that brings
  another one and that every guard allows (`KeyChangesExactly`, over runs `KeyChangedInRun`), and one
  of the two is then the empty string (`ReplacedOnlyByEmpty`). The request types allow it.
- **Repeating a keyed draft request answers with the draft.** Only while account and category are
  still usable: the service's guard runs before the key is looked up (`DraftReplay`,
  `KeyedRepeatRefused`).
- **The total of a PER_HOUSE session is its paid sum.** An update that names PER_HOUSE resets it
  (`TotalTracksUnlessReset`, `TotalCanBeReset`). It holds again from submission on
  (`TotalsAtSubmission`).
- **One active session per route and date.** A rejected session is reactivated without a check
  (`OnePerRouteUnlessReactivated`, `RouteCanBeShared`).
- **A validated collection is posted.** Validation commits first; with total 0, or when another
  transaction already carries the key `collection:<id>`, the posting is refused
  (`ValidatedThenPosted`, `ValidatedWithoutPosting`).
- **The stored total of a submitted session is current.** The module map says that conditional
  updates prevent stale writes; they guard the status, not the total (`TotalCanBeStale`). The total
  is current exactly when the paid items add up at the commit to what they added up to when the
  submission read them (`SubmittedTotalExact`), and so whenever no upsert or update of the session
  commits in between (`UndisturbedSubmissionIsCurrent`). Posting compares the total again, so nothing
  wrong is credited (`CreditedExactly`).
- **A BULK_TOTAL session has no items.** The mode is checked outside the transaction, by updates
  (`BulkCanHaveItems`) and by upserts (`UpsertCanLandInBulk`). These two writes are the only ones that
  break it (`CommitBulkEmpty`, `BulkEmptyUnlessRaced`).
- **An account with ledger rows is never deleted.** As an atomic step, yes (`ArchiveDeletesUnused`);
  but archiving counts rows and then writes without a guard. It deletes an account with rows exactly
  when the count saw none and a row was appended in between (`ArchiveDeletesWithRows`, along runs
  `HiddenOnlyByLateWrite`), whether money is lost from sight with it (`MoneyCanLeaveSight`) or the
  account is empty again (`EmptyAccountDeletedWithRows`). No money disappears from the books: deleted
  accounts included, they hold what was posted (`MoneyConservedUnderRaces`), and the live accounts
  hold all of it exactly if the deleted ones are empty (`LiveMoneyExact`).
- **An approval request that is answered as a replay has rows.** The unique index on row keys spans
  transactions, so a reused request key is answered as a replay of a request that was never made
  (`ReplayOfNothing`, exactly by `ReplayWithoutRows`).
- **Expired approvals cannot be decided.** They can (`ExpiredIsDecided`), and expiry never reaches the
  posting gate; it is only reported (`ExpiredCanBeDecided`, `ExpiryIsOnlyReported`, `ExpiredExact`).
- **PENDING means that a row is pending, or that none was asked for.** It is also reported when the
  rest has been cancelled and the approvals given are too few (`PendingWithoutPendingRows`, exactly by
  `PendingExact`).
- **A summary shows the money of its session.** Only while every paid house is still on the route
  (`SessionShowsTotal`, `SummaryCanHideMoney`).
- **A refresh token that was replaced is detected.** It is not. A token is a JSON Web Token whose
  header takes 36 characters and whose claims begin with the user's identifier; bcrypt reads 72
  characters of it. These are the same in every token of a session (`HashedPartsAgree`,
  `EveryTokenAccepted`), so a replaced token refreshes the session again (`AnyTokenRefreshes`,
  `ReplacedTokenRefreshes`). What the compare-and-set detects is two refreshes at the same time: for
  all runs, a refresh of a live session is rejected exactly when the session was revoked or given
  another hash between its read and its write (`RejectedExactly`).

## Model

| member | source | states |
|---|---|---|
| `Theorems.AccountAgrees` | apps/api/src/modules/finance/infrastructure/prisma-finance.repository.ts:1081-1129 | In every reachable state, per account: ledger rows numbered 1..n, each starting where the previous ended (0 first), each ending at before plus or minus amount and never negative; cached balance = last row = signed sum; version = n + 1; an account with rows is not deleted; the ledger-derived balance is the cached one |
| `Theorems.MoneyConserved` | apps/api/src/modules/finance/infrastructure/prisma-finance.repository.ts:257-288 | In every reachable state the balances of a tenant's live accounts add up to posted income minus posted expense |
| `Theorems.PostedIffOneRow` | apps/api/src/modules/finance/infrastructure/prisma-finance.repository.ts:562-611 | A transaction is POSTED exactly when one ledger row, and only one, references it; every row carries its transaction's tenant, account, amount and the direction of its type |
| `Theorems.FinalForever` | apps/api/src/modules/finance/infrastructure/prisma-finance.repository.ts:475-560 | Over any run of finance, approval and collection calls: ledger rows are only appended, a transaction's particulars never change, and POSTED, REJECTED and VOIDED are absorbing |
| `Theorems.LedgerConflictUnreachable` | apps/api/src/modules/finance/infrastructure/prisma-finance.repository.ts:1088-1113 | The unique indexes of the ledger never refuse the next row of an unposted transaction in a reachable state |
| `Theorems.StepOnTxn` | apps/api/src/modules/finance/infrastructure/prisma-finance.repository.ts:562-611 | The only call that turns a stored transaction POSTED is the posting of that transaction, validated, with an open gate and an acceptable key; every other call changes at most its status |
| `LedgerLaws.LatestIsLast` | apps/api/src/modules/finance/infrastructure/prisma-finance.repository.ts:1088-1095 | The ordered query for the newest row finds the last row of the account's chain |
| `LedgerLaws.BooksAppend` | apps/api/src/modules/finance/infrastructure/prisma-finance.repository.ts:1081-1129 | Appending the next row keeps every account in agreement with its rows |
| `LedgerLaws.ConservedPost` | apps/api/src/modules/finance/infrastructure/prisma-finance.repository.ts:1083-1118 | Booking moves the tenant's balances and its posted amounts by the same signed amount, for every tenant |
| `LedgerLaws.LiveHoldAll` | apps/api/src/modules/finance/infrastructure/prisma-finance.repository.ts:263-273 | Deleted accounts hold no money |
| `FinanceLaws.FinanceStepWrites` | apps/api/src/modules/finance/infrastructure/prisma-finance.repository.ts:208-288 | Every finance call makes one of five kinds of write, each with the conditions it was checked for |
| `FinanceLaws.AccountStepWrites` | apps/api/src/bootstrap/admin-bootstrap.service.ts:216-228 | Account calls, and the bootstrap that revives or creates the main account, write one account row each: flags only, or a new empty account whose key is free |
| `FinanceLaws.WriteKeeps` | apps/api/src/modules/finance/infrastructure/prisma-finance.repository.ts:640-775 | Each such write keeps the books, the transaction-row match, conservation and the unique indexes, and only moves forward |
| `SystemLaws.StepKeeps` | apps/api/src/modules/finance/infrastructure/prisma-finance.repository.ts:562-611 | Every call of every module keeps the whole invariant |
| `SystemLaws.RunKeeps` | apps/api/src/modules/finance/infrastructure/prisma-finance.repository.ts:475-811 | Every run keeps the whole invariant and only moves forward |
| `ExactlyOnce.KeysAndSourcesUnique` | apps/api/src/modules/finance/infrastructure/prisma-finance.repository.ts:866-872 | No tenant stores one key under two transactions; no collection is the source of two |
| `ExactlyOnce.KeyChangesExactly` | apps/api/src/modules/finance/infrastructure/prisma-finance.repository.ts:591-594 | The key of a transaction, present, empty or absent, changes in a step exactly when the step is a posting of it that brings another key and that every guard allows; the new key is then stored |
| `ExactlyOnce.KeyChangedInRun` | apps/api/src/modules/finance/infrastructure/prisma-finance.repository.ts:591-594 | Over a whole run the key ends up different exactly if some call of the run replaced it in this way; what replaced it stays |
| `ExactlyOnce.ReplacedOnlyByEmpty` | apps/api/src/modules/finance/infrastructure/prisma-finance.repository.ts:951-991 | A key that is there is only replaced if it, or the key that replaces it, is the empty string |
| `ExactlyOnce.KeyWriteOnceExceptEmpty` | apps/api/src/modules/finance/infrastructure/prisma-finance.repository.ts:951-991 | Corollary for non-empty stored keys, which are replaced exactly by a posting with the empty key that every guard allows |
| `ExactlyOnce.KeyKept` | apps/api/src/modules/finance/infrastructure/prisma-finance.repository.ts:591-594 | In every run without a posting of the transaction that brings the empty key, or another key to a stored empty one, a stored key stays, the empty one included |
| `ExactlyOnce.DraftReplay` | apps/api/src/modules/finance/infrastructure/prisma-finance.repository.ts:823-838 | While a transaction holds the key, repeating its request changes nothing and answers with it exactly when the content is the same and the service's guard still accepts account and category; otherwise it is refused |
| `ExactlyOnce.DraftCreatedOnce` | apps/api/src/modules/finance/application/finance-transactions.service.ts:44-52 | After a keyed draft was created, the same request at any later time creates nothing |
| `ExactlyOnce.PostedAnswers` | apps/api/src/modules/finance/infrastructure/prisma-finance.repository.ts:571-584 | A posted transaction answers its own key and keyless calls as a replay and refuses every other key |
| `ExactlyOnce.PostedOnce` | apps/api/src/modules/finance/infrastructure/prisma-finance.repository.ts:562-611 | After a successful posting, repeating the call at any later time changes nothing and succeeds with the same transaction |
| `ExactlyOnce.CollectionPostedExactly` | apps/api/src/modules/finance/infrastructure/prisma-finance.repository.ts:686-775 | A transaction that names a collection is POSTED with one row; its collection is VALIDATED, and its amount is the positive session total, for PER_HOUSE the paid-item sum |
| `ExactlyOnce.CollectionFrozen` | apps/api/src/modules/jimpitan/infrastructure/prisma-jimpitan.repository.ts:547-594 | That transaction and its collection stay exactly as they are in every continuation |
| `ExactlyOnce.IncompleteUnreachable` | apps/api/src/modules/finance/infrastructure/prisma-finance.repository.ts:649-684 | The answer "already in progress or incomplete" is never given in a reachable state |
| `ExactlyOnce.CollectionPostedOnce` | apps/api/src/modules/finance/infrastructure/prisma-finance.repository.ts:640-684 | After a collection was posted, repeating the call at any later time books nothing and answers with the same transaction |
| `Concurrency.HistoryHasCallOnce` | apps/api/src/modules/finance/infrastructure/prisma-finance.repository.ts:1524-1536 | Among the calls that take effect around a retried call, the call itself occurs at most once, last, and not at all when every attempt conflicts |
| `Concurrency.RetriedIsARun` | apps/api/src/modules/approvals/infrastructure/prisma-approvals.repository.ts:440-452 | A retried posting, request or decision leaves what one run leaves with the call in it at most once, and without it when it does not succeed |
| `Concurrency.PostCallIsARun` | apps/api/src/modules/finance/infrastructure/prisma-finance.repository.ts:612-637 | A posting call with up to three attempts, other calls committing in between, and the reread after a conflict leaves what one run leaves with the call in it at most once; unless it reports a posting of its own it changed nothing |
| `Concurrency.PostCallProven` | apps/api/src/modules/finance/infrastructure/prisma-finance.repository.ts:612-637 | Whatever commits around it: when posting t succeeds, newly or as a replay, t is POSTED with exactly one row and under the requested key |
| `Concurrency.PostCollectionCallProven` | apps/api/src/modules/finance/infrastructure/prisma-finance.repository.ts:776-810 | Likewise for a collection: on success a transaction naming it is POSTED with exactly one row |
| `Concurrency.DraftCallIsARun` | apps/api/src/modules/finance/infrastructure/prisma-finance.repository.ts:813-873 | A draft request whose guard, lookup, insert and reread are separate leaves what one run of atomic calls leaves |
| `Concurrency.DraftCallHolds` | apps/api/src/modules/finance/infrastructure/prisma-finance.repository.ts:866-873 | When such a request succeeds with t, t holds its key and content |
| `Concurrency.DraftCallsAgree` | apps/api/src/modules/finance/infrastructure/prisma-finance.repository.ts:993-1022 | Two requests with one key that both succeed name one transaction and ask for the same content |
| `Concurrency.PostCallRepeats` | apps/api/src/modules/finance/infrastructure/prisma-finance.repository.ts:612-637 | After a posting call succeeded with t, the same call at any later time, under any schedule and also when every attempt conflicts, answers t as a replay and leaves what the other calls leave |
| `Concurrency.PostCollectionCallRepeats` | apps/api/src/modules/finance/infrastructure/prisma-finance.repository.ts:776-810 | Likewise for the posting of a collection |
| `Concurrency.DraftCallRepeats` | apps/api/src/modules/finance/infrastructure/prisma-finance.repository.ts:813-873 | After a keyed draft request succeeded with t, the same request at any later time, whatever commits in its gaps, creates nothing: it answers t, or the refusal of an account or category that may no longer be used |
| `Concurrency.AnyCallsPostOnce` | apps/api/src/modules/finance/infrastructure/prisma-finance.repository.ts:562-873 | After any finite sequence of posting, collection posting, draft and other calls with arbitrary keys, conflicts, retries and interference, a transaction has one ledger row if posted and none otherwise, and no collection is the source of two |
| `FinanceRepository.FinanceRepository.LatestRow` | apps/api/src/modules/finance/infrastructure/prisma-finance.repository.ts:1088-1092 | One pass over the ledger finds the row the ordered query returns |
| `FinanceRepository.FinanceRepository.GetCashAccountBalance` | apps/api/src/modules/ledger/infrastructure/prisma-ledger.repository.ts:65-82 | The derived balance and sequence of a live account; zero and zero without rows; nothing for an unknown account |
| `FinanceRepository.FinanceRepository.CreateCashAccount` | apps/api/src/modules/finance/infrastructure/prisma-finance.repository.ts:208-229 | Statement by statement, the atomic step: a new account at balance 0 and version 1, or a unique violation |
| `FinanceRepository.FinanceRepository.CreateTransactionDraft` | apps/api/src/modules/finance/infrastructure/prisma-finance.repository.ts:813-873 | Guards, key lookup, replay check and guarded insert are the atomic draft step |
| `FinanceRepository.FinanceRepository.ExpenseGate` | apps/api/src/modules/finance/infrastructure/prisma-finance.repository.ts:900-934 | The gate method returns the refusal of the gate that the approvals evaluation is compared with |
| `FinanceRepository.FinanceRepository.PostingKey` | apps/api/src/modules/finance/infrastructure/prisma-finance.repository.ts:951-991 | The key check, with its two kinds of conflict |
| `FinanceRepository.FinanceRepository.AppendLedger` | apps/api/src/modules/finance/infrastructure/prisma-finance.repository.ts:1081-1129 | Version increment, row and balance write change account and ledger together; each refusal is the one the specification gives |
| `FinanceRepository.FinanceRepository.PostOnce` | apps/api/src/modules/finance/infrastructure/prisma-finance.repository.ts:566-608 | One attempt with its rollbacks is the atomic posting step, which `PostingExact`, `PostingEffect` and `PostingRefusals` give in terms of the tables |
| `FinanceRepository.FinanceRepository.CalculatePaidTotal` | apps/api/src/modules/jimpitan/infrastructure/prisma-jimpitan.repository.ts:858-865 | The paid total, summed row by row |
| `FinanceRepository.FinanceRepository.ResolveCollectionPostingAmount` | apps/api/src/modules/finance/infrastructure/prisma-finance.repository.ts:1055-1079 | The posting amount or its refusal, by mode |
| `FinanceRepository.FinanceRepository.FindOrCreateDefaultAccount` | apps/api/src/modules/finance/infrastructure/prisma-finance.repository.ts:1165-1177 | The account chosen or created, and why there is none; `RequestedAccountUsed` and `MainAccountUsed` say which it is |
| `FinanceRepository.FinanceRepository.FindOrCreateJimpitanCategory` | apps/api/src/modules/finance/infrastructure/prisma-finance.repository.ts:1179-1194 | The category chosen or created, and why there is none; `RequestedCategoryUsed` says which it is |
| `FinanceRepository.FinanceRepository.PostValidatedCollection` | apps/api/src/modules/finance/infrastructure/prisma-finance.repository.ts:643-775 | One attempt, with rollback of a created account or category, is the atomic collection posting step, which `CollectionPostingExact` and `CollectionPostingEffect` give in terms of the tables |
| `SerializableRetry.SerializableRetry.Execute` | apps/api/src/modules/finance/infrastructure/prisma-finance.repository.ts:1524-1536 | The one retry loop, for postings, collection postings, requests and decisions: the specified chain of at most three attempts on the database as others left it, which stays valid |
| `SerializableRetry.SerializableRetry.FindPosting` | apps/api/src/modules/finance/infrastructure/prisma-finance.repository.ts:614-637 | Reading stored state again after a conflict gives the answer the specification gives |
| `SerializableRetry.SerializableRetry.Post` | apps/api/src/modules/finance/infrastructure/prisma-finance.repository.ts:562-638 | Attempts, then the reread after a conflict, are the specified posting call, and leave the database valid |
| `ApprovalsRepository.ApprovalsRepository.RequestOnce` | apps/api/src/modules/approvals/infrastructure/prisma-approvals.repository.ts:187-256 | Guards, replay, fan-out and the conflict branch are the atomic request step, for the policy the service has read |
| `ApprovalsRepository.ApprovalsRepository.DecideOnce` | apps/api/src/modules/approvals/infrastructure/prisma-approvals.repository.ts:288-369 | A decision, with a rejection the transaction too, or nothing, for the policy the service has read: the step that `DecisionExact` gives in terms of the tables |
| `JimpitanRepository.JimpitanRepository.HasActiveDuplicate` | apps/api/src/modules/jimpitan/infrastructure/prisma-jimpitan.repository.ts:697-712 | Is there another active session on the route and date |
| `JimpitanRepository.JimpitanRepository.NoDuplicateHouses` | apps/api/src/modules/jimpitan/application/jimpitan.service.ts:316-321 | Counting different houses decides whether any is named twice |
| `JimpitanRepository.JimpitanRepository.ValidItemAmounts` | apps/api/src/modules/jimpitan/application/jimpitan.service.ts:323-336 | The loop accepts a batch exactly when each amount fits its status |
| `JimpitanRepository.JimpitanRepository.ItemsAssignable` | apps/api/src/modules/jimpitan/infrastructure/prisma-jimpitan.repository.ts:745-776 | Comparing counts of houses decides whether every house is on the route; residents are active in theirs |
| `JimpitanRepository.JimpitanRepository.UpdateCollection` | apps/api/src/modules/jimpitan/infrastructure/prisma-jimpitan.repository.ts:237-291 | The guarded update, with the total reset when PER_HOUSE is named |
| `JimpitanRepository.JimpitanRepository.GenerateChecklist` | apps/api/src/modules/jimpitan/infrastructure/prisma-jimpitan.repository.ts:360-384 | The atomic step of generating a checklist |
| `JimpitanRepository.JimpitanRepository.UpsertAll` | apps/api/src/modules/jimpitan/infrastructure/prisma-jimpitan.repository.ts:410-432 | The loop of upserts, entry by entry, changes the items of one session to those `UpsertedOverwrites` describes, and nothing else |
| `JimpitanRepository.JimpitanRepository.UpsertCollectionItems` | apps/api/src/modules/jimpitan/infrastructure/prisma-jimpitan.repository.ts:399-460 | Guards, upserts, recalculated total and guarded update are the atomic step, which `UpsertExact` gives in terms of the tables |
| `JimpitanRepository.JimpitanRepository.SubmitCollection` | apps/api/src/modules/jimpitan/infrastructure/prisma-jimpitan.repository.ts:505-545 | Readiness twice, with the recalculated total stored |
| `JimpitanRepository.JimpitanRepository.ValidateThenPost` | apps/api/src/modules/jimpitan/application/jimpitan.service.ts:183-200 | Validation commits first, then the hook posts under the collection's key; a refusal of the hook leaves the session validated |
| `CallTheorems.InactiveIsSilent` | apps/api/src/modules/finance/infrastructure/prisma-finance.repository.ts:231-255 | From a deactivation until a call activates the account again, no run appends a ledger row to it or moves its balance or version |
| `CallTheorems.DeactivationUndone` | apps/api/src/modules/finance/infrastructure/prisma-finance.repository.ts:231-255 | Activating again restores the state before the deactivation; between the two, every posting from the account is refused |
| `CallTheorems.ArchiveDeletesUnused` | apps/api/src/modules/finance/infrastructure/prisma-finance.repository.ts:257-288 | In a reachable state archiving deletes an account exactly if its version is 1, that is, nothing was ever booked on it, and the live money of the tenant stays what it was |
| `CallTheorems.MovesOnce` | apps/api/src/modules/finance/infrastructure/prisma-finance.repository.ts:475-560 | A validation, rejection or voiding that succeeded is refused ever after, whatever happened in between |
| `CallTheorems.PolicyTakesEffect` | apps/api/src/modules/approvals/infrastructure/prisma-approvals.repository.ts:80-100 | An accepted policy is what both modules read back, with its threshold, flags, roles and number of approvals; other tenants keep theirs; a refused one changes nothing |
| `CallTheorems.RequestedCanDecide` | apps/api/src/modules/approvals/infrastructure/prisma-approvals.repository.ts:404-431 | The members a request asks are exactly those whose own decision is admitted afterwards under the same policy |
| `CallTheorems.CancelledStays` | apps/api/src/modules/approvals/infrastructure/prisma-approvals.repository.ts:375-402 | Cancelling takes exactly that member out of the approvals in play, and in every continuation deciding or cancelling the approval again is refused |
| `CallTheorems.CreatedIsAlone` | apps/api/src/modules/jimpitan/infrastructure/prisma-jimpitan.repository.ts:197-235 | A created session is the only active one on its route and date, nothing else changes, and a second creation there is refused |
| `CallTheorems.CancelledForever` | apps/api/src/modules/jimpitan/infrastructure/prisma-jimpitan.repository.ts:301-335 | A cancelled session stays as it is in every continuation and never again stands in the way of its route |
| `CallTheorems.BulkTotalReachesLedger` | apps/api/src/modules/jimpitan/infrastructure/prisma-jimpitan.repository.ts:462-503 | A total entered for a BULK_TOTAL session, then submitted, validated and posted, is the amount of the session, of its transaction and of the appended ledger row |
| `CallTheorems.ValidatedFromSubmitted` | apps/api/src/modules/jimpitan/infrastructure/prisma-jimpitan.repository.ts:547-594 | Behind every validated session of a run there is one validating call, made when the session was submitted with exactly its present content |
| `CallTheorems.RejectReopens` | apps/api/src/modules/jimpitan/infrastructure/prisma-jimpitan.repository.ts:596-630 | A rejected session can be submitted again as it is and stores the total it was rejected with; only the mark of the rejection remains |
| `CallLaws.WrittenKept` | apps/api/src/modules/jimpitan/infrastructure/prisma-jimpitan.repository.ts:434-442 | A step that stores one well-formed session row keeps the whole system sound and only moves it forward |
| `Policy.EvaluatorsAgree` | apps/api/src/modules/approvals/application/approvals.service.ts:60-70 | For every stored setting (malformed ones too), transaction, approval table and clock: the gate opens exactly when approval is reported as not required or approved, and each closed state corresponds to its own reports |
| `Policy.NormalizeIdempotent` | apps/api/src/modules/approvals/infrastructure/prisma-approvals.repository.ts:618-633 | Normalizing a normalized policy changes nothing |
| `Policy.ReadBack` | apps/api/src/modules/approvals/infrastructure/prisma-approvals.repository.ts:80-100 | Storing a policy and reading it back normalizes only the two numeric bounds |
| `Policy.ExpiryIsOnlyReported` | apps/api/src/modules/finance/infrastructure/prisma-finance.repository.ts:914-933 | Approvals that differ only in expiry open the gate alike |
| `ApprovalLaws.FanOutRows` | apps/api/src/modules/approvals/infrastructure/prisma-approvals.repository.ts:213-229 | A request asks each eligible approver exactly once, all pending |
| `ApprovalLaws.RejectionCoupling` | apps/api/src/modules/approvals/infrastructure/prisma-approvals.repository.ts:307-339 | A transaction with a rejected approval is itself REJECTED and has exactly one |
| `ApprovalLaws.ProgressShrinks` | apps/api/src/modules/approvals/infrastructure/prisma-approvals.repository.ts:196-212 | Once requested, rows are fixed, and approved plus pending only shrinks |
| `ApprovalLaws.ApprovedPersist` | apps/api/src/modules/approvals/infrastructure/prisma-approvals.repository.ts:296-316 | Given approvals stay, by the same person |
| `Theorems.EvidencePersists` | apps/api/src/modules/finance/infrastructure/prisma-finance.repository.ts:900-934 | For an expense posted and not auto-approved, in every later state at least as many approvals as the policy then required are APPROVED, unchanged since, by distinct memberships, and none is REJECTED |
| `Theorems.RejectedGateUnreachable` | apps/api/src/modules/finance/infrastructure/prisma-finance.repository.ts:918-922 | In no reachable state does the gate of a validated expense meet a rejected approval |
| `Theorems.PostedCannotBeRejected` | apps/api/src/modules/approvals/infrastructure/prisma-approvals.repository.ts:328-339 | No approval of a posted transaction can be rejected |
| `Theorems.StoredPolicyKeepsIndependence` | apps/api/src/modules/approvals/infrastructure/prisma-approvals.repository.ts:302-304 | Along every run from the empty database in whose states the stored policy prevents self approval, nobody approves or rejects an expense they requested or entered, although each decision may use a policy read in any earlier state |
| `Theorems.PreventionIsDefault` | apps/api/src/modules/approvals/infrastructure/prisma-approvals.repository.ts:618-633 | Without an update of the tenant that turns it off, the stored policy prevents self approval in every state of every run |
| `Theorems.StalledNeverPosts` | apps/api/src/modules/finance/infrastructure/prisma-finance.repository.ts:918-933 | Under a fixed policy, once approved plus pending is below the required count, an expense needing approval is not posted in any continuation |
| `CollectionTheorems.TotalsAtSubmission` | apps/api/src/modules/jimpitan/application/collection-mode.policy.ts:24-44 | HYBRID is unreachable; submitted and validated sessions are as their mode demands, with the total equal to the paid sum or a whole amount in 1..999999999999; finance takes a validated session exactly when its total is positive |
| `CollectionTheorems.TotalTracksUnlessReset` | apps/api/src/modules/jimpitan/infrastructure/prisma-jimpitan.repository.ts:262-274 | A PER_HOUSE total keeps following the paid items through a call unless the call is an accepted update naming PER_HOUSE while paid items exist |
| `CollectionTheorems.SharedRouteWasRejected` | apps/api/src/modules/jimpitan/infrastructure/prisma-jimpitan.repository.ts:707-712 | Two different active sessions on one tenant, route and date: at least one was rejected before |
| `CollectionTheorems.OnePerRouteUnlessReactivated` | apps/api/src/modules/jimpitan/infrastructure/prisma-jimpitan.repository.ts:293-299 | One active session per route survives a call exactly when it is not a call whose guards let it reactivate a rejected session whose route was taken over |
| `CollectionTheorems.UniqueWithoutRejections` | apps/api/src/modules/jimpitan/infrastructure/prisma-jimpitan.repository.ts:199-206 | In runs without rejections the active session of a route and date is unique |
| `CollectionTheorems.ValidatedThenPosted` | apps/api/src/modules/finance/infrastructure/jimpitan-finance.hooks.ts:31-47 | After a validation the hook's posting succeeds exactly when the total is positive, default account and category are available and the collection's key is free; total 0 is refused |
| `CollectionLaws.SettledContent` | apps/api/src/modules/finance/infrastructure/prisma-finance.repository.ts:1055-1075 | Content of a settled session, and when it may be posted |
| `CollectionLaws.FrozenWhileSubmitted` | apps/api/src/modules/jimpitan/infrastructure/prisma-jimpitan.repository.ts:964-974 | A submitted session can only be decided or cancelled, with its content as it is |
| `CollectionLaws.PaidIsAll` | apps/api/src/modules/jimpitan/application/jimpitan.service.ts:323-336 | The paid sum is the sum of all item amounts |
| `Interleaving.ItemsOnlyWhileEditable` | apps/api/src/modules/jimpitan/infrastructure/prisma-jimpitan.repository.ts:434-442 | With unlocked reads: items change only when an upsert of that session commits while the session is editable |
| `Interleaving.FrozenUntilRejected` | apps/api/src/modules/jimpitan/infrastructure/prisma-jimpitan.repository.ts:520-530 | From submission on, whatever is in flight, everything but the status stays until a rejection |
| `Interleaving.CreditedExactly` | apps/api/src/modules/finance/infrastructure/prisma-finance.repository.ts:1066-1074 | What is credited is the validated session's positive total, for PER_HOUSE exactly its committed paid items, also where a racing submission stored a stale total |
| `Interleaving.StaleNeverPosted` | apps/api/src/modules/finance/infrastructure/prisma-finance.repository.ts:1071-1073 | A validated session that fails the posting check is never posted in any continuation |
| `Races.TotalCanBeStale` | apps/api/src/modules/jimpitan/infrastructure/prisma-jimpitan.repository.ts:512-530 | A reachable interleaving that validates a session with total 100 and 200 in paid items |
| `RaceLaws.SubmittedTotalExact` | apps/api/src/modules/jimpitan/infrastructure/prisma-jimpitan.repository.ts:512-530 | Over all interleavings: a submission of a session with items that lands has stored the current total exactly when the paid items added up, at the time it read them, to what they add up to at its commit; for a BULK_TOTAL session, when the total it began with is still the total |
| `RaceLaws.UndisturbedSubmissionIsCurrent` | apps/api/src/modules/jimpitan/infrastructure/prisma-jimpitan.repository.ts:505-545 | When no upsert or update of the session commits between its reads and its commit, whatever else runs, a submission that lands stores the current total |
| `Races.BulkCanHaveItems` | apps/api/src/modules/jimpitan/application/jimpitan.service.ts:287-293 | A reachable interleaving that gives a BULK_TOTAL session an item |
| `Races.UpsertCanLandInBulk` | apps/api/src/modules/jimpitan/infrastructure/prisma-jimpitan.repository.ts:434-442 | The other way: an upsert begun under PER_HOUSE that commits after the mode change |
| `RaceLaws.CommitBulkEmpty` | apps/api/src/modules/jimpitan/infrastructure/prisma-jimpitan.repository.ts:237-291 | A commit keeps every BULK_TOTAL session free of items exactly when it is neither a landing update naming BULK_TOTAL on a session with items nor a landing non-empty upsert on a BULK_TOTAL session |
| `RaceLaws.BulkEmptyUnlessRaced` | apps/api/src/modules/jimpitan/application/jimpitan.service.ts:287-293 | The same for every event of every interleaving |
| `RaceLaws.TakersExclude` | apps/api/src/modules/jimpitan/infrastructure/prisma-jimpitan.repository.ts:199-230 | Two concurrent moves that put active sessions on one route have each read what the other wrote, so serializable isolation does not let both commit |
| `RaceLaws.LandsNotTaken` | apps/api/src/modules/jimpitan/infrastructure/prisma-jimpitan.repository.ts:237-286 | So a move that lands on a route was not forestalled there by a concurrent one |
| `RaceLaws.SharedRouteWasRejectedUnderRaces` | apps/api/src/modules/jimpitan/infrastructure/prisma-jimpitan.repository.ts:199-206 | With the route checks of creating and changing split from their writes, under that conflict rule and any commits of other calls: of two active sessions on one route one was rejected before |
| `RaceLaws.RoadEventsExact` | apps/api/src/modules/jimpitan/infrastructure/prisma-jimpitan.repository.ts:199-206 | When a split creation or change starts, and that other calls commit at once |
| `RaceLaws.CreateUnraced` | apps/api/src/modules/jimpitan/infrastructure/prisma-jimpitan.repository.ts:197-235 | Without anything in between, the split creation is the atomic one |
| `RaceLaws.ChangeUnraced` | apps/api/src/modules/jimpitan/infrastructure/prisma-jimpitan.repository.ts:237-291 | Without anything in between, the split change is the atomic update |
| `Races.ArchiveUnraced` | apps/api/src/modules/finance/infrastructure/prisma-finance.repository.ts:257-288 | Without a call in between, the two phases of archiving are the atomic step |
| `Races.ArchiveDeletesWithRows` | apps/api/src/modules/finance/infrastructure/prisma-finance.repository.ts:263-273 | The late write of archiving deletes an account that has ledger rows exactly when the count saw none and a row of the account was appended between the phases |
| `Races.EmptyAccountDeletedWithRows` | apps/api/src/modules/finance/infrastructure/prisma-finance.repository.ts:263-273 | A reachable state and two postings between the phases, after which an account with two rows and balance 0 is deleted |
| `Races.ArchiveKeepsMoney` | apps/api/src/modules/finance/infrastructure/prisma-finance.repository.ts:263-273 | About money only: the unguarded write of archiving keeps all of it in live accounts exactly when the earlier count had seen rows or the account is empty by then |
| `Races.LossNeedsPosting` | apps/api/src/modules/finance/infrastructure/prisma-finance.repository.ts:263-273 | Money leaves sight only if something was posted between count and write |
| `ArchiveRaces.MoneyConservedUnderRaces` | apps/api/src/modules/finance/infrastructure/prisma-finance.repository.ts:257-288 | Along every run with split archives and everything else interleaved: all accounts of a tenant, deleted ones included, hold its posted income minus its posted expense |
| `ArchiveRaces.BooksAgreeUnderRaces` | apps/api/src/modules/finance/infrastructure/prisma-finance.repository.ts:1081-1129 | Along every such run each account, deleted or not, agrees with its ledger rows in balance, numbering and version |
| `ArchiveRaces.LiveMoneyExact` | apps/api/src/modules/finance/infrastructure/prisma-finance.repository.ts:263-273 | Along every such run live and deleted accounts add up to what was posted, so the live ones hold all of it exactly if every deleted account is empty |
| `ArchiveRaces.HiddenOnlyByLateWrite` | apps/api/src/modules/finance/infrastructure/prisma-finance.repository.ts:263-273 | In every state of such a run an account with rows becomes deleted exactly by the late write of an archive that had seen no row |
| `Races.MoneyCanLeaveSight` | apps/api/src/modules/finance/infrastructure/prisma-finance.repository.ts:257-273 | A reachable state and one posting between the phases, after which 100 are in no live account |
| `FinanceEffects.PostingExact` | apps/api/src/modules/finance/infrastructure/prisma-finance.repository.ts:566-608 | A validated transaction is posted exactly if, column by column, its account is the tenant's, live and active, its category is there, not deleted, active, of its kind and the tenant's or a system one, an expense has its approvals or needs none, the key is neither another one than the stored nor another transaction's, and the money suffices |
| `FinanceEffects.PostingEffect` | apps/api/src/modules/finance/infrastructure/prisma-finance.repository.ts:1081-1129 | Then one row, numbered by the account's version, is appended, balance, version, status and key are as written out, and nothing else changes |
| `FinanceEffects.PostingRefusals` | apps/api/src/modules/finance/infrastructure/prisma-finance.repository.ts:894-991 | Otherwise nothing changes, and each answer is given exactly when its own condition fails and no earlier one: inactive account, inactive category, gate, other key, key of another transaction, too little money, unique violation |
| `FinanceEffects.AppendReasons` | apps/api/src/modules/finance/infrastructure/prisma-finance.repository.ts:1081-1113 | In any state: why the ledger does not take a row |
| `FinanceEffects.BalanceExact` | apps/api/src/modules/ledger/infrastructure/prisma-ledger.repository.ts:65-82 | The balance derived from the ledger is the cached one at the number the version says, of live accounts of the tenant only |
| `FinanceEffects.RowByAccount` | apps/api/src/modules/finance/infrastructure/prisma-finance.repository.ts:1088-1113 | The next row of an account, by its cached balance and version |
| `FinanceEffects.PostedAgain` | apps/api/src/modules/finance/infrastructure/prisma-finance.repository.ts:571-584 | A posted transaction is answered by its key alone |
| `FinanceEffects.DraftExact` | apps/api/src/modules/finance/infrastructure/prisma-finance.repository.ts:841-873 | A draft is stored exactly if amount, account and category fit and neither its references nor its key are in use; it stores that one row |
| `FinanceEffects.MovesExact` | apps/api/src/modules/finance/infrastructure/prisma-finance.repository.ts:475-560 | From which statuses validating, rejecting and voiding are possible, and that they change the status only |
| `FinanceEffects.NewAccountExact` | apps/api/src/modules/finance/infrastructure/prisma-finance.repository.ts:208-229 | A new account needs a key its tenant does not use, and starts without money |
| `FinanceEffects.AccountCallsExact` | apps/api/src/modules/finance/infrastructure/prisma-finance.repository.ts:231-288 | Updating and archiving reach live accounts of the tenant only, and touch two flags; archiving deletes exactly without rows |
| `FinanceEffects.BootstrapExact` | apps/api/src/bootstrap/admin-bootstrap.service.ts:216-228 | The bootstrap revives the main account, or opens it |
| `FinanceEffects.CategoriesExact` | apps/api/src/modules/finance/infrastructure/prisma-finance.repository.ts:366-388 | No tenant has two categories of one key and kind; those of no tenant may agree |
| `CollectionPosting.CollectionPostingExact` | apps/api/src/modules/finance/infrastructure/prisma-finance.repository.ts:686-775 | A collection is posted exactly if it is validated with a postable amount, some account and category serve as requested or by default, and identifier and key are free |
| `CollectionPosting.CollectionPostingEffect` | apps/api/src/modules/finance/infrastructure/prisma-finance.repository.ts:701-775 | The whole state it leaves: the transaction, its row on the account that serves, that balance and version, what was created, nothing else |
| `CollectionPosting.RequestedAccountUsed` | apps/api/src/modules/finance/infrastructure/prisma-finance.repository.ts:695-697 | A requested account is the one booked on, no account is created and all others stay; inactive, deleted or foreign it is refused |
| `CollectionPosting.RequestedCategoryUsed` | apps/api/src/modules/finance/infrastructure/prisma-finance.repository.ts:698-700 | Likewise for a requested category |
| `CollectionPosting.MainAccountUsed` | apps/api/src/modules/finance/infrastructure/prisma-finance.repository.ts:1165-1177 | Without a request the account has the key main, and is created only if there is none |
| `CollectionPosting.CollectionRefusals` | apps/api/src/modules/finance/infrastructure/prisma-finance.repository.ts:685-700 | The other answers, each with its condition |
| `PostingOrigins.PostedByCall` | apps/api/src/modules/finance/infrastructure/prisma-finance.repository.ts:562-775 | Behind every posted transaction of a run is a call that met all these conditions in the state it found |
| `PostingOrigins.PostedByOneCall` | apps/api/src/modules/finance/infrastructure/prisma-finance.repository.ts:562-775 | And only one: no two calls of a run both post it |
| `CallEffects.ThreeAttempts` | apps/api/src/modules/finance/infrastructure/prisma-finance.repository.ts:1524-1536 | A retried call, attempt by attempt: three at most, each on what the calls before have left, the next only after a conflict |
| `CallEffects.PostRereads` | apps/api/src/modules/finance/infrastructure/prisma-finance.repository.ts:612-637 | Exactly after the two conflicts the answer comes from the transaction, if it is posted by then; else the first answer stands |
| `CallEffects.CollectionRereads` | apps/api/src/modules/finance/infrastructure/prisma-finance.repository.ts:776-810 | Likewise from the transaction that names the collection |
| `CallEffects.NothingToReread` | apps/api/src/modules/finance/infrastructure/prisma-finance.repository.ts:776-810 | Without one the first answer stands |
| `CallEffects.CollectionReplayExact` | apps/api/src/modules/finance/infrastructure/prisma-finance.repository.ts:649-684 | What is answered, and that nothing changes, while a transaction names the collection |
| `CallEffects.UndisturbedDraft` | apps/api/src/modules/finance/infrastructure/prisma-finance.repository.ts:813-873 | A draft request with nothing in its gaps is the atomic one |
| `ApprovalEffects.CashTextIsMoney` | apps/api/src/modules/approvals/application/approvals.service.ts:181-184 | A threshold text is accepted exactly as one to twelve digits, alone or followed by a point and one or two digits |
| `ApprovalEffects.PolicyAccepted` | apps/api/src/modules/approvals/application/approvals.service.ts:181-191 | A policy is accepted exactly with such a threshold, at least one approval and at least one role |
| `ApprovalEffects.WhoIsEligible` | apps/api/src/modules/approvals/infrastructure/prisma-approvals.repository.ts:404-431 | Who may be asked, column by column |
| `ApprovalEffects.RequestExact` | apps/api/src/modules/approvals/infrastructure/prisma-approvals.repository.ts:187-256 | Each answer of a request with its own condition |
| `ApprovalEffects.RequestEffect` | apps/api/src/modules/approvals/infrastructure/prisma-approvals.repository.ts:213-229 | Exactly the members that may approve get one pending row each, under a key of its own; every other row stays |
| `ApprovalEffects.RowKeysDiffer` | apps/api/src/modules/approvals/infrastructure/prisma-approvals.repository.ts:213-229 | Rows of one request never share a key |
| `ApprovalEffects.DecisionExact` | apps/api/src/modules/approvals/infrastructure/prisma-approvals.repository.ts:288-369 | A decision succeeds exactly if the row is the tenant's and pending, the actor acts as the very membership asked, which is active with a role of the policy, is no party where the policy prevents it, and, for a rejection, the transaction is validated; then that row, and for a rejection that transaction, changes |
| `ApprovalEffects.DecisionRefusals` | apps/api/src/modules/approvals/application/approvals.service.ts:149-159 | Each refusal with its own condition |
| `ApprovalEffects.CancellationExact` | apps/api/src/modules/approvals/infrastructure/prisma-approvals.repository.ts:375-402 | Exactly a pending row of the tenant can be cancelled; the canceller is recorded |
| `ApprovalEffects.DecidedByAsked` | apps/api/src/modules/approvals/infrastructure/prisma-approvals.repository.ts:299-301 | Behind every given or rejected approval of a run there is one decision call by somebody acting as the membership asked, who was then allowed to |
| `ApprovalEffects.PostedByDistinctMembers` | apps/api/src/modules/finance/infrastructure/prisma-finance.repository.ts:914-933 | An expense that needs approvals is posted only after as many different memberships as required have each approved it by a call of their own |
| `PolicyEffects.ThresholdRead` | apps/api/src/modules/approvals/infrastructure/prisma-approvals.repository.ts:618-621 | The threshold read is the stored text, or 50000 |
| `PolicyEffects.FlagsRead` | apps/api/src/modules/approvals/infrastructure/prisma-approvals.repository.ts:626-629 | Both flags are on unless the setting says false |
| `PolicyEffects.RolesRead` | apps/api/src/modules/approvals/infrastructure/prisma-approvals.repository.ts:622-622 | The roles read are the stored list of texts, or KETUA_RT |
| `PolicyEffects.RequiredRead` | apps/api/src/modules/approvals/infrastructure/prisma-approvals.repository.ts:621-630 | The number required is the stored whole number, no less than one, or one |
| `PolicyEffects.DaysRead` | apps/api/src/modules/approvals/infrastructure/prisma-approvals.repository.ts:623-624 | The days read are the stored member as a number, if positive, or seven |
| `PolicyEffects.BothReadAlike` | apps/api/src/modules/finance/infrastructure/prisma-finance.repository.ts:936-949 | The finance module reads the three fields it uses like the approvals module |
| `CollectionEffects.CreateExact` | apps/api/src/modules/jimpitan/infrastructure/prisma-jimpitan.repository.ts:197-235 | A session is created exactly on a free route, for an officer and area in use, with a fitting mode and total; the row stored is written out |
| `CollectionEffects.UpdateExact` | apps/api/src/modules/jimpitan/infrastructure/prisma-jimpitan.repository.ts:237-291 | When an update succeeds, and the row it stores, column by column |
| `CollectionEffects.StatusCallsExact` | apps/api/src/modules/jimpitan/infrastructure/prisma-jimpitan.repository.ts:293-335 | When starting, generating, cancelling and rejecting succeed, and that they change the status only |
| `CollectionEffects.OwnCallsTurnedAway` | apps/api/src/modules/jimpitan/application/jimpitan.service.ts:302-307 | Who is turned away from a session: other tenants, and anybody but its officer without the permission to validate |
| `CollectionEffects.UpsertedOverwrites` | apps/api/src/modules/jimpitan/infrastructure/prisma-jimpitan.repository.ts:410-432 | The loop of upserts gives each house of the batch its last entry, adds no other house and leaves the rest |
| `CollectionEffects.UpsertExact` | apps/api/src/modules/jimpitan/infrastructure/prisma-jimpitan.repository.ts:399-460 | Items are upserted exactly if every entry fits, each for a house of its own; then each entry is the item of its house, all others stay, and the total is the paid sum of what is stored |
| `CollectionEffects.PaidSumCounts` | apps/api/src/modules/jimpitan/infrastructure/prisma-jimpitan.repository.ts:858-865 | The paid sum adds the amounts of paid items and nothing else |
| `CollectionEffects.SetBulkExact` | apps/api/src/modules/jimpitan/infrastructure/prisma-jimpitan.repository.ts:462-503 | When a total may be entered, and that it changes total and status only |
| `CollectionEffects.SubmitExact` | apps/api/src/modules/jimpitan/infrastructure/prisma-jimpitan.repository.ts:505-545 | A session is submitted exactly if it is ready before and after its total is calculated and the request is new; the row stored is written out |
| `CollectionEffects.ValidateExact` | apps/api/src/modules/jimpitan/infrastructure/prisma-jimpitan.repository.ts:547-594 | When a validation succeeds, and what it stores |
| `CollectionEffects.InputReasons` | apps/api/src/modules/jimpitan/application/jimpitan.service.ts:275-285 | Which totals each mode takes |
| `CollectionEffects.CreateReasons` | apps/api/src/modules/jimpitan/application/jimpitan.service.ts:57-65 | The first thing wrong with a new session is the answer |
| `CollectionEffects.UpdateReasons` | apps/api/src/modules/jimpitan/application/jimpitan.service.ts:67-89 | Likewise for an update, with the service's checks of the route before the repository's |
| `CollectionEffects.UpsertReasons` | apps/api/src/modules/jimpitan/application/jimpitan.service.ts:136-148 | Likewise for items |
| `CollectionEffects.OtherReasons` | apps/api/src/modules/jimpitan/application/jimpitan.service.ts:150-181 | Likewise for generating, starting, entering a total and submitting |
| `CollectionEffects.DecisionReasons` | apps/api/src/modules/jimpitan/application/jimpitan.service.ts:183-213 | Likewise for validating, rejecting and cancelling |
| `CollectionEffects.CallsExact` | apps/api/src/modules/jimpitan/application/jimpitan.service.ts:91-213 | Each call is its own step |
| `CollectionEffects.ItemWasEntered` | apps/api/src/modules/jimpitan/infrastructure/prisma-jimpitan.repository.ts:410-432 | Behind every item of a run there is a call that entered it, house, status and amount |
| `InterleavedEffects.ReadExact` | apps/api/src/modules/jimpitan/infrastructure/prisma-jimpitan.repository.ts:399-408 | A call goes on after its first read exactly if session and input allow it |
| `InterleavedEffects.ReadHolds` | apps/api/src/modules/jimpitan/infrastructure/prisma-jimpitan.repository.ts:505-514 | What it holds from that read |
| `InterleavedEffects.UpsertReads` | apps/api/src/modules/jimpitan/infrastructure/prisma-jimpitan.repository.ts:433-433 | The total an upsert reads is the paid sum with its batch entered |
| `InterleavedEffects.ReadsNoMore` | apps/api/src/modules/jimpitan/infrastructure/prisma-jimpitan.repository.ts:433-442 | It is read once |
| `InterleavedEffects.SubmissionReads` | apps/api/src/modules/jimpitan/infrastructure/prisma-jimpitan.repository.ts:511-512 | A submission reads the number of items and then the total |
| `InterleavedEffects.EventsExact` | apps/api/src/modules/jimpitan/infrastructure/prisma-jimpitan.repository.ts:399-545 | What each event does to database and flights |
| `InterleavedEffects.CommitExact` | apps/api/src/modules/jimpitan/infrastructure/prisma-jimpitan.repository.ts:434-442 | A commit stores one row, as its call says, exactly if the session as it is by then allows it |
| `InterleavedEffects.UpsertCommitsByEntry` | apps/api/src/modules/jimpitan/infrastructure/prisma-jimpitan.repository.ts:410-442 | In every interleaving a committing upsert stores each entry of its batch as the item of its house, on the items as they are by then, and leaves all other houses alone |
| `InterleavedEffects.UndisturbedIsAtomic` | apps/api/src/modules/jimpitan/infrastructure/prisma-jimpitan.repository.ts:399-630 | A call that nobody disturbs does what the atomic call does, whenever that succeeds |
| `Counterexamples.TotalCanBeReset` | apps/api/src/modules/jimpitan/infrastructure/prisma-jimpitan.repository.ts:269-269 | A reachable PER_HOUSE session with total 0 and 100 in paid items |
| `Counterexamples.ValidatedWithoutPosting` | apps/api/src/modules/jimpitan/application/jimpitan.service.ts:194-198 | A reachable validated session that the hook refuses |
| `Counterexamples.RouteCanBeShared` | apps/api/src/modules/jimpitan/infrastructure/prisma-jimpitan.repository.ts:293-299 | A reachable state with two active sessions on one route |
| `ApprovalCases.PendingExact` | apps/api/src/modules/approvals/application/approvals.service.ts:60-70 | PENDING is reported without a pending row exactly when nothing is rejected, fewer are approved than required, and there is no row at all or somebody has approved |
| `ApprovalCases.PendingWithoutPendingRows` | apps/api/src/modules/approvals/infrastructure/prisma-approvals.repository.ts:490-501 | A reachable case of it: one request, one approval, one cancellation |
| `ApprovalCases.ExpiredExact` | apps/api/src/modules/approvals/application/approvals.service.ts:60-70 | EXPIRED is reported exactly when nothing is rejected, fewer are approved than required, and a pending row is past its time |
| `ApprovalCases.ExpiredIsDecided` | apps/api/src/modules/approvals/infrastructure/prisma-approvals.repository.ts:296-306 | A reachable approval that is reported as expired and then given |
| `ApprovalCases.ReplayWithoutRows` | apps/api/src/modules/approvals/infrastructure/prisma-approvals.repository.ts:433-438 | Exactly when a request is answered as a replay although the transaction has no approval: it passes all guards and another request used the row key of one of its approvers |
| `ApprovalCases.ReplayOfNothing` | apps/api/src/modules/approvals/infrastructure/prisma-approvals.repository.ts:213-276 | A reachable case of it |
| `Counterexamples.KeyedRepeatRefused` | apps/api/src/modules/finance/application/finance-transactions.service.ts:44-52 | A reachable stored draft whose keyed request is refused when repeated, because the account was deactivated |
| `Counterexamples.SummaryCanHideMoney` | apps/api/src/modules/jimpitan/infrastructure/prisma-jimpitan.repository.ts:1009-1027 | A reachable session with 100 in paid items whose summary shows 0 |
| `Counterexamples.EmptyKeyReopensDraft` | apps/api/src/modules/finance/infrastructure/prisma-finance.repository.ts:593-593 | After a posting with the empty key the draft request that had used the old key creates a second transaction |
| `Counterexamples.KeyedDraftTwice` | apps/api/src/modules/finance/infrastructure/prisma-finance.repository.ts:959-961 | A reachable run in which one keyed draft request creates two transactions |
| `Counterexamples.EmptyKeyIsReplaced` | apps/api/src/modules/finance/infrastructure/prisma-finance.repository.ts:593-593 | A reachable validated draft stored with the empty key, whose posting with the key k replaces it |
| `Summary.ToSummary` | apps/api/src/modules/jimpitan/infrastructure/prisma-jimpitan.repository.ts:1041-1088 | The loop's totals and per-area records are the five figures by their own definitions; each area is listed once |
| `Summary.AreasPartition` | apps/api/src/modules/jimpitan/infrastructure/prisma-jimpitan.repository.ts:1076-1086 | In each of the five columns the areas add up to the total |
| `Summary.OutstandingOrSettled` | apps/api/src/modules/jimpitan/infrastructure/prisma-jimpitan.repository.ts:651-656 | Outstanding plus settled houses are all houses; the count is the length of the outstanding list |
| `Summary.SummaryShowsTotal` | apps/api/src/modules/jimpitan/infrastructure/prisma-jimpitan.repository.ts:1009-1027 | The collected figure is the session's paid sum exactly when every paid item's house is on the route; never more |
| `Summary.SessionShowsTotal` | apps/api/src/modules/jimpitan/infrastructure/prisma-jimpitan.repository.ts:1009-1027 | For a session and the houses as they are now: the collected figure is the paid sum exactly when every paid item's house is on the session's route |
| `Summary.PagesRestoreList` | apps/api/src/modules/jimpitan/infrastructure/prisma-jimpitan.repository.ts:657-666 | For every limit of at least 1, the pages in turn give the whole list in order, and none is empty |
| `Slug.SlugifyNormal` | apps/api/src/modules/content/domain/slug.util.ts:10-20 | Every slug has 1..80 characters of a-z, 0-9 and single inner dashes |
| `Slug.FixedPoints` | apps/api/src/modules/content/domain/slug.util.ts:10-20 | The texts that are their own slug are exactly those in that form |
| `Slug.SlugifyIdempotent` | apps/api/src/modules/content/domain/slug.util.ts:10-20 | Slugifying a slug changes nothing |
| `Slug.SlugSpellsTitle` | apps/api/src/modules/content/domain/slug.util.ts:11-19 | The slug spells the title's letters and digits in order as far as the limit reaches; only a title without any falls back |
| `Slug.CandidatesDistinct` | apps/api/src/modules/content/domain/slug.util.ts:28-29 | The candidates are pairwise distinct |
| `Slug.EnsureUniqueSlug` | apps/api/src/modules/content/domain/slug.util.ts:23-35 | The first untaken of 999 candidates in order, else the stamped root; never a taken slug when fewer than 999 are taken |
| `SummaryFigures.FiguresCount` | apps/api/src/modules/jimpitan/infrastructure/prisma-jimpitan.repository.ts:1041-1088 | The five figures, in total and of an area, as counts over the houses: all, with an item, paid, neither paid nor dispensed, and the sum of paid amounts |
| `SummaryFigures.OutstandingInOrder` | apps/api/src/modules/jimpitan/infrastructure/prisma-jimpitan.repository.ts:651-656 | The outstanding list keeps, in order, exactly the houses neither paid nor dispensed |
| `SlugWords.PreparedExact` | apps/api/src/modules/content/domain/slug.util.ts:12-14 | Combining marks go, A-Z become a-z, everything else stays |
| `SlugWords.WordExact` | apps/api/src/modules/content/domain/slug.util.ts:15-15 | Which characters words are made of |
| `SlugWords.WordAlone` | apps/api/src/modules/content/domain/slug.util.ts:15-15 | A text of such characters is one word |
| `SlugWords.WordsSplit` | apps/api/src/modules/content/domain/slug.util.ts:15-15 | Any other character separates words |
| `SlugWords.SlugJoinsWords` | apps/api/src/modules/content/domain/slug.util.ts:10-20 | The slug of a title is its words joined by single dashes, cut at eighty characters or before the dash there; a title without words is called postingan |
| `SlugWords.CandidatesExact` | apps/api/src/modules/content/domain/slug.util.ts:23-34 | The candidates are the root, then -2 to -999 |
| `RefreshSession.AuthRepository.CreateRefreshSession` | apps/api/src/modules/auth/infrastructure/prisma-auth.repository.ts:80-98 | Inserts the session, or nothing when the identifier exists |
| `RefreshSession.AuthRepository.RotateRefreshSession` | apps/api/src/modules/auth/infrastructure/prisma-auth.repository.ts:113-129 | Compare-and-set: rotates exactly when the stored hash is the expected one and the session is not revoked |
| `RefreshSession.AuthRepository.RevokeRefreshSession` | apps/api/src/modules/auth/infrastructure/prisma-auth.repository.ts:131-141 | Marks the session revoked and changes nothing else |
| `RefreshSession.AuthService.Refresh` | apps/api/src/modules/auth/application/auth.service.ts:50-93 | The service call, with other calls' steps before its compare-and-set, is the call the protocol describes, with the same answer; `RefreshTable` lists answers and effects |
| `RefreshSession.AuthService.Logout` | apps/api/src/modules/auth/application/auth.service.ts:95-111 | The service call is the logout the protocol describes; `LogoutTable` lists answers and effects |
| `RefreshSession.OneChain` | apps/api/src/modules/auth/infrastructure/prisma-auth.repository.ts:113-129 | Under any interleaving successful refreshes form one chain per session, and no hash is rotated away twice |
| `RefreshSession.RevokedForever` | apps/api/src/modules/auth/infrastructure/prisma-auth.repository.ts:131-141 | A revoked session never changes and is not rotated again, also by calls that read it before |
| `TokenText.HashedPartsAgree` | apps/api/src/modules/auth/infrastructure/bcrypt-password-hasher.service.ts:17-23 | The first 72 characters of two refresh tokens agree exactly when the identifiers of their users agree in 18 characters, whatever session, tenant, times and signature |
| `RefreshReplay.AcceptedExactly` | apps/api/src/modules/auth/infrastructure/bcrypt-password-hasher.service.ts:17-23 | So verification accepts a token against the hash of another exactly when their users' identifiers agree in 18 characters |
| `RefreshReplay.OneUserPerSession` | apps/api/src/modules/auth/application/auth.service.ts:67-71 | In every run that signs as the service does, all tokens of a session are one user's |
| `RefreshReplay.EveryTokenAccepted` | apps/api/src/modules/auth/application/auth.service.ts:58-63 | Every token ever signed for a session is accepted against the hash it stores, replaced or not |
| `RefreshReplay.NeverMismatched` | apps/api/src/modules/auth/application/auth.service.ts:58-63 | No refresh that read a live session revokes it for its token: it signs a new one, or ends without principal |
| `RefreshReplay.AnyTokenRefreshes` | apps/api/src/modules/auth/application/auth.service.ts:50-93 | An undisturbed refresh of a live session succeeds with any token ever signed for it |
| `RefreshReplay.AnyTokenLogsOut` | apps/api/src/modules/auth/application/auth.service.ts:95-111 | And a logout with any of them revokes it |
| `RefreshReplay.ReplacedTokenRefreshes` | apps/api/src/modules/auth/infrastructure/jwt-auth-token.service.ts:29-35 | For any three tokens of one user and session there is a run that signs as the service does in which a replaced token refreshes the session again and nothing is revoked; so verification does not separate tokens |
| `RefreshReplay.RejectedExactly` | apps/api/src/modules/auth/application/auth.service.ts:73-85 | For all runs: a refresh that read a live session is rejected, and the session revoked, exactly when the session was revoked or given another hash between the read and the compare-and-set; otherwise it succeeds |
| `RefreshReplay.RefreshCallExactly` | apps/api/src/modules/auth/application/auth.service.ts:50-93 | The same for the whole call with any token of the session, as the service method makes it |
| `RefreshSession.UndisturbedSucceeds` | apps/api/src/modules/auth/application/auth.service.ts:65-92 | An undisturbed refresh with the current token succeeds and stores the new hash |
| `RefreshSession.LogoutExact` | apps/api/src/modules/auth/application/auth.service.ts:103-109 | A logout revokes exactly when its token is accepted |
| `RefreshExpiry.LoadExact` | apps/api/src/modules/auth/application/auth.service.ts:52-56 | What a call does with the session it reads: missing, revoked and expired ones are turned away with their own answers |
| `RefreshExpiry.ExpiredIsRefused` | apps/api/src/modules/auth/application/auth.service.ts:53-56 | A refresh and a logout of an unrevoked session whose expiry is not later than now end as expired and leave the sessions as they were |
| `RefreshExpiry.RefreshTable` | apps/api/src/modules/auth/application/auth.service.ts:50-93 | Every answer of a refresh and every row it leaves, whatever other calls do before its compare-and-set |
| `RefreshExpiry.LogoutTable` | apps/api/src/modules/auth/application/auth.service.ts:95-111 | Every answer of a logout and what it leaves |
| `RefreshExpiry.LoginExact` | apps/api/src/modules/auth/infrastructure/prisma-auth.repository.ts:80-98 | A login stores its hash under an unused identifier; nothing else starts a session |
| `RefreshExpiry.TimeGoesOn` | apps/api/src/modules/auth/application/auth.service.ts:53-53 | The clock never runs backwards along a run |
| `RefreshExpiry.RotatedExact` | apps/api/src/modules/auth/infrastructure/prisma-auth.repository.ts:113-129 | The compare-and-set, on the stored row |
| `RefreshExpiry.RotatedInTime` | apps/api/src/modules/auth/application/auth.service.ts:52-85 | In every interleaving each rotation is that of a call that read the session unrevoked, strictly before the expiry stored then, with the very hash it replaced |
| `RefreshExpiry.RevokedInTime` | apps/api/src/modules/auth/application/auth.service.ts:52-110 | Likewise each revocation |
| `RefreshExpiry.TurnedAwayForGood` | apps/api/src/modules/auth/application/auth.service.ts:53-56 | A call that reads a missing, revoked or expired session neither rotates nor revokes, in every interleaving |
| `TokenText.AlphabetExact` | apps/api/src/modules/auth/infrastructure/jwt-auth-token.service.ts:29-35 | The alphabet of base64url |
| `TokenText.TestVectors` | apps/api/src/modules/auth/infrastructure/jwt-auth-token.service.ts:29-35 | The test vectors of RFC 4648 |
| `TokenText.UuidExact` | apps/api/src/modules/auth/application/auth.service.ts:67-71 | The form of user identifiers |
| `TokenText.HashedAlike` | apps/api/src/modules/auth/infrastructure/bcrypt-password-hasher.service.ts:17-23 | Texts are hashed alike exactly if their first 72 characters agree |
| `Workflow.NextExact` | apps/web/src/features/jimpitan/workflow.ts:53-60 | Where the walk goes from each house: ahead, else to the start, and with everything filled one house on or nowhere |
| `Workflow.NextIsUnfilled` | apps/web/src/features/jimpitan/workflow.ts:53-60 | From any current house an unfilled house is next whenever one exists |
| `Workflow.NextIsAhead` | apps/web/src/features/jimpitan/workflow.ts:57-58 | The first unfilled house ahead is taken before starting over |
| `Workflow.WalkCompletes` | apps/web/src/features/jimpitan/workflow.ts:53-60 | Filling the next house again and again visits each unfilled house exactly once, in as many steps, and leaves none |
| `Workflow.StepsAreMissingHouses` | apps/web/src/features/jimpitan/workflow.ts:62-64 | The number of steps is the checklist's length minus its completed count, and then all count as completed |

## Left out

- Audit logs, notifications, hooks that do nothing, and columns no rule reads (names, notes, reasons, who and when stamps): side effects without influence on the state modelled.
- `deletedAt` of transactions: no call sets it, so a transaction is never hidden.
- Identifiers are natural numbers instead of UUIDs; a generated identifier is a parameter of the call and may collide, which the model answers with a unique violation.
- Decimal columns and the text of amounts: integer cents with the ranges the guards check; comparison of an amount with a threshold text is a parameter of the database (`Platform`), any function.
- Serializable transactions are taken as atomic steps that the database may abort; of PostgreSQL's conflict detection only one rule is used, in `RaceLaws`: two concurrent serializable transactions of which each has read what the other wrote do not both commit.
- FinanceRepository.FinanceRepository.CreateTransactionDraft: one atomic call; the version with gaps between its queries is `Concurrency.DraftCall`.
- SerializableRetry.SerializableRetry.Execute: other transactions appear as the database contents they leave between attempts, tied to runs of calls by the precondition.
- ApprovalsRepository.ApprovalsRepository.RequestOnce: expiry of the new rows is a parameter, being computed from a clock.
- CallTheorems.CancelledStays: reads and guarded update of a cancellation are one step; the row's status guards the update.
- InterleavedEffects.UndisturbedIsAtomic: one way; a call the service alone would refuse, for its caller or a first readiness check, begins in the interleaved model.
- Interleaving.ItemsOnlyWhileEditable: creating a session and the final part of an update are single steps, being serializable (`RaceLaws` splits them for the route checks); the service's earlier reads of guards that the transaction repeats are dropped, which only admits more runs.
- Theorems.EvidencePersists: distinct approvers are distinct memberships; that two memberships of a tenant never share a user is a unique index of a table not modelled.
- Summary.ToSummary: areas come in the order met; the sort by area code uses a locale comparison from a library.
- Summary.SessionShowsTotal: a BULK_TOTAL session has another summary, its stored total and no houses, which is not modelled.
- Slug.SlugifyNormal: the input is the text after compatibility decomposition (NFKD), a library function.
- RefreshSession.ReplayRevokes: a result about verification that tells tokens apart, which bcrypt over the tokens of the service does not (`RefreshReplay.ReplacedTokenRefreshes`); so it does not apply to the service as it is.
- RefreshSession.SameTokenTwiceRevokes: the same; without the proviso, `RefreshReplay.RejectedExactly` says when two refreshes with one token exclude each other.
- RefreshSession.ReplayNeedsSeparation: for any verification that accepts one token for another; that bcrypt does is `RefreshReplay.AcceptedExactly`.
- RefreshReplay.AcceptedExactly: bcrypt is taken to accept a text exactly when its first 72 characters are those of the hashed text, and to salt, so no two signings get one hash; signatures are any texts, and identifiers of users are UUIDs in their usual form. Expiry is compared with a clock that never runs backwards.
- Theorems.DecidersIndependent: the form for decisions that each carry a preventing policy; `Theorems.StoredPolicyKeepsIndependence` is the one about the stored setting.
- JimpitanRepository.JimpitanRepository.GenerateChecklist: the checklist it returns is `Summary.ToChecklist` of the route's houses; the query for those houses is not modelled.
- JimpitanRepository.JimpitanRepository.ValidateThenPost: the hook's posting is one attempt; its retries are those of `Concurrency.PostCall`.
- Schedules: a session's schedule is kept as its area; finding or creating the schedule row and its completion are bookkeeping.
- Categories and the tables of members, areas, houses and residents: replaced as a whole by arbitrary content between steps, where the services change them row by row.
- Reports, Telegram, residents, settings and content lifecycle services, list queries with filters, sorting and paging in the database, controllers, guards, user interface: wiring, or easy members.
