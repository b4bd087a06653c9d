# Shared expenses, verified

A Dafny model of the backend of a shared-expense application, with proofs of what its
ledger and the protocols around it promise. `dafny verify dfyconfig.toml` checks all of it.

The backend keeps an expense ledger per group. Expenses are split equally, by percentage,
by exact amounts or item by item over a receipt; settlements are payments between members.
A debt summary adds the rows up to net balances and simplifies them into a short list of
payments. Around the ledger there are three protocols: personal transactions are
synchronised with last-writer-wins and a cursor, group operations are pushed with
idempotency keys and a change feed, and logins are refreshed through rotating sessions.
Groups have roles that decide who may do what.

Each component has a module with a functional specification and its theorems. Where the
source changes stored objects, a class or a method in the same form is proved to do exactly
what the specification says, so the theorems about the specification are theorems about it.

| file | component |
|---|---|
| `Basics.dfy`, `Sums.dfy` | vocabulary; sums over tables |
| `Plans.dfy`, `Debts.dfy` | debt simplification: the plan as a function, and the two-heap matcher that computes it |
| `Splits.dfy`, `Itemized.dfy`, `ReceiptDrafts.dfy` | the split calculators, itemized expenses, itemized expenses created with their receipt |
| `Ledger.dfy`, `LedgerService.dfy`, `LedgerRequests.dfy` | the rows of all groups, runs of financial operations, the settlement lock; when requests are accepted and what they store |
| `Balances.dfy`, `DebtSummaries.dfy`, `RecordedPlans.dfy`, `Aggregates.dfy`, `Friends.dfy` | net balances, debt summaries, recording the payments of a plan, aggregate queries, pairwise balances |
| `SummaryCache.dfy` | the debt summary cache |
| `PersonalSync.dfy`, `SyncService.dfy`, `SyncAnswers.dfy`, `Replica.dfy` | personal push, claim and pull; what the answers mean |
| `GroupPush.dfy`, `GroupAnswers.dfy`, `PushedChanges.dfy` | group push with crashes and retries; its answers; joint runs of the push and the ledger |
| `Sessions.dfy`, `SessionAccess.dfy` | refresh-session rotation (section 4.14.2 of RFC 9700); when access begins and ends |
| `Roles.dfy`, `Memberships.dfy` | group roles, invitations and account deletion, with the financial rows they look at; how memberships begin, change and end |
| `Departures.dfy`, `ArchivedGroups.dfy` | balances of departed members; balances of archived groups |

Money is `int`, identifiers are `nat` and ordered like the canonical strings of the UUIDs.
Clocks, new primary keys, query results that lie outside a component and the order in which
a query without `ORDER BY` returns rows are parameters or arbitrary choices.

Where the code and its documentation disagree the model follows the code: the comment at
`backend/app/services/group_expense_service.py:121` promises leftover pennies by a stable
user order, but they go by request order (`PenniesFollowRequestOrder` says exactly when that
matters, and `ZeroPercentPays` that a participant with 0 % can be given one).

Several properties one would expect hold only under a condition; these are stated as
equivalences: `PersonalSync.OrderIrrelevantExactlyWhen` and
`PersonalSync.RepeatedBatchChangesNothingExactlyWhen` (a delete for an unknown record leaves
no tombstone), `Replica.WriteReachesClientExactlyWhen` (a write that is not stamped later
than the cursor is missed), `GroupPush.RetrySucceedsExactlyWhen` (an author who has left, another
body and a deleted expense cannot be replayed), `Friends.AlwaysOppositeExactlyWhen` (nothing keeps
a direct group at two members, and each user's counterpart is the first other member),
`Departures.DepartedBalanceCanMoveExactlyWhen` (old expenses can be changed after a member left at
zero), `ArchivedGroups.ArchivedBalanceCanMoveExactlyWhen` (the routes of pushed changes and of adding a
member do not ask whether the group is archived), `GroupPush.OwnEntryExactlyWhen` (a record id that was
used before keeps its first feed entry), `RecordedPlans.RecordedPlanSettlesExactlyWhen` (a member who still
owes or is owed may have left), `Splits.PenniesFollowRequestOrder`, `Sessions.RepeatedReuseChangesNothing`,
`Roles.DeletionArchivesExactlyWhen`. Where an expected property fails, a lemma named after the
failure gives a concrete input, on a reachable state where there is one.

## Model

| member | source | states |
|---|---|---|
| Plans.PlanSettles | backend/app/domain/debts.py:146-168 | for balances that sum to zero the plan ends with both sides empty together and every balance exactly zero |
| Plans.PlanRoles | backend/app/domain/debts.py:132-158 | every payer owed money, every payee was owed money, and every payment is one the transfer constructor accepts |
| Plans.PlanNeverRepeatsAPair | backend/app/domain/debts.py:145-164 | no debtor pays the same creditor twice |
| Plans.PlanAmountsNonIncreasing | backend/app/domain/debts.py:145-164 | the payments of a plan never grow |
| Plans.PlanLength | backend/app/domain/debts.py:108-112 | with D debtors and C creditors there are at least max(D, C) and at most D + C - 1 payments |
| Plans.PlanStability | backend/app/domain/debts.py:118-211 | recording any first k payments and planning again yields exactly the remaining payments |
| Plans.PlanMovesLeastMoney | backend/app/domain/debts.py:105-116 | no list of payments among the members that settles everybody moves less money in total |
| Plans.PlanIgnoresSettledMembers | backend/app/domain/debts.py:132-141 | members with balance zero have no influence on the plan |
| Plans.PlanPaysLargest | backend/app/domain/debts.py:132-148 | at every position, of the balances left by then, the payer owes most and the payee is owed most, of equals the lower user id, and they settle the smaller amount |
| Plans.PlanIsTheGreedyPlan | backend/app/domain/debts.py:105-116 | for zero-sum balances the plan is the only list of payments made by that rule |
| Debts.SimplifyIgnoresInputOrder | backend/app/domain/debts.py:108-116 | every permutation of the input gives the same payments in the same order, or the same error |
| Debts.SimplifySettlesEveryBalance | backend/app/domain/debts.py:119-126 | on duplicate-free zero-sum input nothing raises, and applying the plan makes every balance zero |
| Debts.AppliedBalancesAreValid | backend/app/domain/debts.py:199-211 | recorded payments keep the balances unique and zero-sum, so re-validating them never fails |
| Debts.RecordedPaymentsKeepThePlan | backend/app/domain/debts.py:118-211 | plan stability as the service shows it: applying a prefix of the payments and simplifying again |
| Debts.SimplifyExactlyWhen | backend/app/domain/debts.py:118-168 | success gives exactly the greedy list of payments; the duplicate error means a user twice, the other error distinct users and a sum that is not zero |
| Debts.EqualDebtsExample | backend/app/domain/debts.py:114-116 | of two members with the same debt the one with the lower id pays first |
| Debts.MinHeap.Heapify | backend/app/domain/debts.py:142-143 | the heap holds exactly the given items |
| Debts.MinHeap.Push | backend/app/domain/debts.py:161-164 | one more item, for a user who has none |
| Debts.MinHeap.Pop | backend/app/domain/debts.py:147-148 | removes the least (amount, user id) |
| Debts.Validate | backend/app/domain/debts.py:213-231 | reports a duplicate user first, then a sum that is not zero |
| Debts.Amounts | backend/app/domain/debts.py:180-183 | the table of balances, later rows replacing earlier ones |
| Debts.Record | backend/app/domain/debts.py:188-200 | applies all payments, or refuses exactly when one of them names a stranger |
| Debts.ApplySettlements | backend/app/domain/debts.py:170-211 | the rows of the input in their order with the balances after all payments |
| Debts.ValidateResult | backend/app/domain/debts.py:233-257 | passes exactly when the payments name members only and leave nothing open |
| Debts.MatchOnce | backend/app/domain/debts.py:147-164 | one round: the largest debtor pays the largest creditor and at most one of them goes back with the remainder |
| Debts.Match | backend/app/domain/debts.py:145-164 | the two heaps produce the plan, terminate, and run out together for zero-sum balances |
| Debts.Simplify | backend/app/domain/debts.py:118-168 | returns the plan of valid input and the validation error of any other; the self-check is dead code |
| Splits.EqualSharesConserve | backend/app/services/group_expense_service.py:96-106 | equal shares sum to the total, follow request order, and differ by at most one unit |
| Splits.LeftoverIsSmall | backend/app/services/group_expense_service.py:118-123 | fewer units are left over than there are participants, so the bumping loop stays in range |
| Splits.PercentageSharesConserve | backend/app/services/group_expense_service.py:109-124 | every share is its floor or floor + 1 and the shares sum to the total |
| Splits.PercentageShares | backend/app/services/group_expense_service.py:109-124 | the in-place loop computes that split, or the first applicable error |
| Splits.PenniesFollowRequestOrder | backend/app/services/group_expense_service.py:121-124 | the split is independent of request order exactly when nothing is left over |
| Splits.ZeroPercentPays | backend/app/services/group_expense_service.py:121-124 | a 0 % participant pays one unit exactly when listed among the first leftover positions |
| Splits.ZeroPercentExample | backend/app/services/group_expense_service.py:109-124 | a split in which the 0 % participant pays one unit |
| Splits.PennyMovesExample | backend/app/services/group_expense_service.py:121-124 | the same percentages in another order: the odd unit moves to another participant |
| Splits.ExactShares | backend/app/services/group_expense_service.py:127-139 | exact shares are accepted exactly when positive in total, non-negative and summing to the total, and are returned sorted by user |
| Splits.SortedKeepsShares | backend/app/services/group_expense_service.py:139 | the sorted shares are a permutation of the requested ones, in user order, with the same sum |
| Splits.ExactSharesConserve | backend/app/services/group_expense_service.py:127-139 | accepted exact shares keep their rows and sum to the total |
| Itemized.AcceptedExpenseConserves | backend/app/services/group_expense_service.py:619-651 | an accepted itemized expense assigns every receipt line exactly its price; total = prices + extras = sum of shares; only active members have shares |
| Itemized.TotalIsForced | backend/app/services/group_expense_service.py:631-646 | once all lines match, the final comparison fails exactly for a total other than prices + extras |
| Itemized.AcceptedExactlyWhen | backend/app/services/group_expense_service.py:487-651 | accepted exactly when every assignment, extra and line fits, no line is assigned to a user twice, the payer is active and the total is prices plus extras |
| Itemized.ShareIsWhatWasAssigned | backend/app/services/group_expense_service.py:513-601 | everybody's share is what they were assigned plus their part of every extra |
| Itemized.RefusalNamesAFault | backend/app/services/group_expense_service.py:487-651 | each refusal names a fault the request has |
| Itemized.CollectAssignments | backend/app/services/group_expense_service.py:513-543 | the three accumulated dictionaries are the sums per line, per user and of quantities; refusal exactly for duplicates or bad amounts |
| Itemized.CollectExtra | backend/app/services/group_expense_service.py:556-592 | one extra adds its shares to the users' sums or is refused with the stated error |
| Itemized.CollectExtras | backend/app/services/group_expense_service.py:545-601 | all extras together, or the refusal of the first bad one |
| Itemized.CompareLines | backend/app/services/group_expense_service.py:631-642 | passes exactly when every line is met in price and quantity, and reports only a mismatch that exists |
| Itemized.ItemizedSplit | backend/app/services/group_expense_service.py:487-651 | accepts exactly the requests that satisfy every condition, with the sums per user as shares |
| ReceiptDrafts.DraftFormEqualsIdForm | backend/app/services/group_expense_service.py:389-417 | translating draft positions to stored ids changes neither acceptance nor anybody's share |
| ReceiptDrafts.StoredRefused | backend/app/services/group_expense_service.py:404-434 | an error of the stored form is an error of the draft |
| ReceiptDrafts.UnassignedBack | backend/app/services/group_expense_service.py:418-433 | unassigned lines are reported back as exactly the unassigned draft positions |
| ReceiptDrafts.StoreLines | backend/app/services/group_expense_service.py:334-391 | positions and stored lines correspond one to one; refusal exactly for a repeated position |
| ReceiptDrafts.ItemizedFromDraft | backend/app/services/group_expense_service.py:311-434 | the whole request behaves as if its lines were named by position |
| Ledger.FastExpenseConserved | backend/app/services/group_expense_service.py:247-283 | the stored shares of a fast expense sum to its positive total |
| Ledger.UpdatedExpenseConserved | backend/app/api/routers/sync.py:355-458 | a pushed update keeps an expense conserved |
| Ledger.RunKeepsSound | backend/app/api/routers/sync.py:355-457 | over every run the shares of each expense sum to its total and settlements are well-formed |
| Ledger.LockIsForever | backend/app/services/group_expense_service.py:176-188 | one step neither unlocks a locked expense nor changes anything financial about it |
| Ledger.LockedExpenseNeverChanges | backend/app/api/routers/sync.py:339-457 | over every run a locked expense keeps payer, total, currency, split type, shares, receipt and deleted flag |
| Ledger.ExpenseChangesOnlyBy | backend/app/api/routers/sync.py:313-337 | a stored expense changes only by a pushed change addressed to it, by its active creator or an active administrator, on the expected version; group, creator and creation time never change |
| Ledger.StaleChangeIsRefused | backend/app/api/routers/sync.py:331-337 | of two changes made on the same version the second is refused once the first is in |
| Ledger.DeletedExpenseNeverChanges | backend/app/api/routers/sync.py:327-330 | over every run a deleted expense never changes again |
| Ledger.ItemizedAmountsNeverChange | backend/app/api/routers/sync.py:423-432 | over every run an itemized expense keeps its payer, total, currency and shares |
| Ledger.NewRowsAreBetweenActiveMembers | backend/app/services/group_expense_service.py:215-246 | new expenses and settlements appear only in unarchived groups and only between active members |
| LedgerRequests.FastSplitAcceptedExactlyWhen | backend/app/services/group_expense_service.py:215-268 | a fast split adds a row exactly when group, currency, receipt, members and values are in order; otherwise nothing changes |
| LedgerRequests.FastSplitStored | backend/app/services/group_expense_service.py:247-283 | the stored row has the requested payer, creator, total, currency and type; equal shares differ by at most one, percentage shares are the exact part rounded down or one more, the extra units going to those listed first, and fixed shares are the requested ones |
| LedgerRequests.FastSplitMovesBalances | backend/app/services/group_expense_service.py:247-283 | the payer's balance rises by the total and everybody's falls by their share |
| LedgerRequests.PercentageExample | backend/app/services/group_expense_service.py:109-124 | seventy and thirty percent of a hundred are stored as 70 and 30 |
| LedgerRequests.ItemizedStored | backend/app/services/group_expense_service.py:451-681 | an itemized expense adds a row exactly when it is allowed, with the assigned shares, and its lines count as itemized |
| LedgerRequests.LineIsItemizedOnce | backend/app/services/group_expense_service.py:498-511 | over every run two accepted itemized expenses have no receipt line in common |
| LedgerRequests.SettlementMovesBalances | backend/app/services/settlement_service.py:28-102 | a settlement is recorded exactly when it is allowed; the payer's balance rises by the amount, the payee's falls by it, nobody else's moves |
| LedgerRequests.UpdateStored | backend/app/api/routers/sync.py:354-458 | a pushed update is accepted exactly when its author may change the expense, the values fit, and nothing financial changes or the expense is neither locked nor itemized; the row then shows everything the request says |
| LedgerRequests.DeleteStored | backend/app/api/routers/sync.py:341-349 | a pushed delete is accepted exactly when its author may change the expense and no settlement was recorded since; the balances lose what the row posted |
| LedgerRequests.OutsidersLearnNothing | backend/app/api/routers/sync.py:313-325 | the answer to somebody outside every group does not depend on the stored rows |
| LedgerRequests.ConflictTold | backend/app/api/routers/sync.py:313-337 | a member is told forbidden, deleted or changed exactly when it is so; a deleted record is never reported as a mere version conflict |
| LedgerRequests.UpdateRefusals | backend/app/api/routers/sync.py:386-432 | an update is refused as locked or itemized exactly when it is otherwise fine and changes something financial; the other refusals hold |
| LedgerRequests.CreateRefusals | backend/app/services/group_expense_service.py:215-268 | a refused fast split or settlement is refused for a reason that holds |
| LedgerServices.LedgerService.CalculateShares | backend/app/services/group_expense_service.py:247-268 | dispatches to the calculator of the split type |
| LedgerServices.LedgerService.CreateFastSplit | backend/app/services/group_expense_service.py:215-288 | adds exactly the specified expense, or reports the first failing guard and changes nothing |
| LedgerServices.LedgerService.CreateItemized | backend/app/services/group_expense_service.py:451-681 | adds exactly the specified expense and marks its receipt lines, or changes nothing |
| LedgerServices.LedgerService.CreateSettlement | backend/app/services/settlement_service.py:28-102 | adds exactly the specified settlement, or reports the first failing guard |
| LedgerServices.LedgerService.IsFinanciallyLocked | backend/app/services/group_expense_service.py:176-188 | finds out whether a settlement of the group was recorded at or after the expense |
| LedgerServices.LedgerService.LoadForMutation | backend/app/api/routers/sync.py:313-337 | loads the expense or reports the first failing guard, in order |
| LedgerServices.LedgerService.PushExpenseUpdate | backend/app/api/routers/sync.py:354-458 | replaces exactly the specified fields, or reports the first failing guard |
| LedgerServices.LedgerService.PushExpenseDelete | backend/app/api/routers/sync.py:341-349 | marks the expense deleted unless it is locked |
| Balances.GroupBalancesSumToZero | backend/app/services/debt_summary_service.py:61-106 | the net balances of a group sum to zero (rows against columns) |
| Balances.EveryRunBalances | backend/app/services/debt_summary_service.py:61-106 | the same over every run from an empty ledger |
| Balances.ShareChangeDrift | backend/app/api/routers/sync.py:550-595 | creating, changing or deleting one share by itself unbalances the group by exactly the amount by which the share changes |
| DebtSummaries.SummaryPlanSettlesGroup | backend/app/services/debt_summary_service.py:102-114 | paying the suggested payments settles the group |
| RecordedPlans.RecordedPlanSettlesExactlyWhen | backend/app/services/settlement_service.py:28-102 | recording every payment of the plan brings every balance of the group to zero exactly when everybody with an open balance is active, the group is not archived and the amounts can be stored |
| RecordedPlans.DepartedMemberExample | backend/app/api/routers/sync.py:341-349 | a reachable state: a member who left is owed six, and recording the whole plan leaves the group unsettled |
| DebtSummaries.ExpenseAmounts | backend/app/services/debt_summary_service.py:69-75 | the accumulated amounts are paid minus shares, for everybody who appears |
| DebtSummaries.SettlementTransfers | backend/app/services/debt_summary_service.py:77-100 | the settlements of the group as payments, and who appears in them |
| DebtSummaries.SortUsers | backend/app/services/debt_summary_service.py:81-91 | every user once, in id order |
| DebtSummaries.GetForGroup | backend/app/services/debt_summary_service.py:35-114 | never raises a balance error; lists exactly the active members and everybody named in a live row, once and in id order, with the net balance read off the rows, and the plan for these balances |
| Aggregates.GroupBy | backend/app/services/debt_summary_service.py:130-144 | an aggregate query gives each key the sum of its rows, and only keys that have rows |
| Aggregates.AddTo | backend/app/services/debt_summary_service.py:145-165 | adding or subtracting a query's rows in the dictionary of totals |
| Aggregates.AggregateBy | backend/app/services/debt_summary_service.py:128-199 | the four queries together |
| Aggregates.AggregateAgrees | backend/app/services/debt_summary_service.py:116-127 | the aggregate of a key is the sum of the per-group balances of the groups with that key |
| Aggregates.TouchedExactlyWhen | backend/app/services/debt_summary_service.py:128-199 | a key is listed exactly when a live expense or a settlement of one of its groups names the user |
| Aggregates.GetGroupNetBalances | backend/app/services/debt_summary_service.py:210-286 | in each group the amount is the one the debt summary lists for the user, zero when the user is not listed or the group is absent |
| Aggregates.GetOverallBalance | backend/app/services/debt_summary_service.py:116-208 | per currency the sum of the user's balances over groups neither direct nor archived; a currency is listed exactly when a live expense or settlement of such a group names the user |
| Friends.PairNetAntisymmetric | backend/app/services/friend_service.py:102-133 | over the same groups two users see opposite amounts |
| Friends.OppositeExactlyWhen | backend/app/services/friend_service.py:34-56 | either both friends list each other with opposite amounts or neither lists the other, exactly when both or neither have a group assigned and the groups assigned for only one of them balance each other |
| Friends.AlwaysOppositeExactlyWhen | backend/app/services/friend_service.py:34-56 | whatever the books, both lists agree in this way exactly when each direct group has the friend as counterpart for both or for neither |
| Friends.ShownExactlyWhen | backend/app/services/friend_service.py:34-133 | a friend is shown exactly when some unarchived direct group lists the friend first among the other active members; the amount is over these groups and the shared unarchived ones |
| Friends.CounterpartJoinedFirst | backend/app/services/friend_service.py:36-45 | the counterpart joined no later than any other active member |
| Friends.PairsAreAssignedAlike | backend/app/services/friend_service.py:34-46 | that holds when no third member is active in the direct groups of the two |
| Friends.FriendsSeeDifferentAmounts | backend/app/services/friend_service.py:34-56 | a reachable state with a direct group of three in which one friend is shown 0 and the other -6 |
| Friends.PairwiseAmountsSumToNet | backend/app/services/friend_service.py:103-133 | inside a group a member's pairwise amounts over all others sum to the member's net balance |
| Friends.CounterpartOf | backend/app/services/friend_service.py:36-45 | the first other active member in joining order |
| Friends.Counterparts | backend/app/services/friend_service.py:34-46 | the counterpart of every direct group that has one |
| Friends.PairBalance | backend/app/services/friend_service.py:102-133 | the running total is the pairwise balance over the given groups |
| Friends.EntriesAreShown | backend/app/services/friend_service.py:48-151 | every entry of a user's list shows the amount over the groups assigned to that friend and the groups the two share |
| Friends.ListShowsFriends | backend/app/services/friend_service.py:34-151 | a user is on the list with an amount exactly when it is the amount shown for them; users without an assigned group are not listed |
| Friends.ListFriends | backend/app/services/friend_service.py:21-151 | one entry per direct group with a counterpart; somebody is listed with an amount exactly when it is the amount over their assigned and shared groups |
| SummaryCache.FreshSummaryIsUpToDate | backend/app/api/routers/settlements.py:294-306 | a computed summary shows the current payments and non-zero balances |
| SummaryCache.OtherGroupsKeepTheirRows | backend/app/services/debt_summary_service.py:49-50 | a write touches the rows of one group only, so other cached summaries stay right |
| SummaryCache.RunKeepsFresh | backend/app/api/routers/sync.py:697-705 | over every run everything cached is what would be computed now |
| SummaryCache.EveryServedSummaryIsUpToDate | backend/app/api/routers/settlements.py:290-306 | every summary served, cached or not, shows the payments and non-zero balances of that moment |
| SummaryCache.GetDebtSummary | backend/app/api/routers/settlements.py:282-306 | serves an up-to-date summary and leaves an up-to-date cache |
| SummaryCache.PostSettlement | backend/app/api/routers/settlements.py:233-252 | a recorded settlement drops the group's entry |
| PersonalSync.AppliedChangesGrow | backend/app/repositories/cloud_transactions.py:53-103 | the stored client timestamp strictly grows at every applied change; the status says whether a row changed; rows never disappear |
| SyncAnswers.StatusTellsOutcome | backend/app/services/sync_service.py:192-289 | each status is answered exactly when it is true of what was visible; after success the record is visible as asked, otherwise no row changed |
| SyncAnswers.RepeatedOperation | backend/app/services/sync_service.py:192-289 | an operation sent again is answered unchanged if it had succeeded, and as before if not |
| SyncAnswers.RowAfter | backend/app/repositories/cloud_transactions.py:35-103 | the primary key stays, a tombstone keeps payload and installation, every change carries the server's clock, other records are untouched |
| SyncAnswers.PushTellsOutcomes | backend/app/services/sync_service.py:115-142 | every answer of a batch is for its own record and true of the record as the operations before it leave it |
| SyncAnswers.RepeatedPushReportsNoChange | backend/app/services/sync_service.py:115-142 | repeating a batch that is safe to repeat reports unchanged or conflict for every operation |
| SyncAnswers.ClaimTellsOutcomes | backend/app/services/sync_service.py:70-113 | a claimed transaction is accepted exactly when valid and newer, a duplicate exactly when already visible as claimed, and rejected otherwise |
| PersonalSync.VisibleAfter | backend/app/services/sync_service.py:115-142 | the visible state of a record after a batch depends on its own operations only |
| PersonalSync.NewestWins | backend/app/services/sync_service.py:192-289 | a known record ends as its newest operation, or unchanged if that is older than what was stored |
| PersonalSync.KnownRecordIgnoresOrder | backend/app/services/sync_service.py:192-289 | on a known record any order of distinctly stamped operations ends in the same visible state |
| PersonalSync.OrderIrrelevantExactlyWhen | backend/app/services/sync_service.py:266-276 | order is irrelevant exactly when the record is known, or never upserted, or no delete is newer than every upsert |
| PersonalSync.RepeatedBatchChangesNothingExactlyWhen | backend/app/services/sync_service.py:115-142 | pushing a batch again changes no row exactly when no early delete of an unknown record would take effect the second time |
| PersonalSync.UpsertFirstIsSafeToRepeat | backend/app/services/sync_service.py:192-289 | a batch that upserts unknown records first is safe to repeat |
| PersonalSync.OrderMattersExample | backend/app/services/sync_service.py:266-276 | an upsert and a newer delete of an unknown record: in one order the record ends deleted, in the other visible |
| PersonalSync.UnsafeBatchExample | backend/app/services/sync_service.py:270-276 | a delete before its upsert: the record is visible after the first push and deleted after the second |
| SyncServices.CloudTransactionRepository.TryInsert | backend/app/repositories/cloud_transactions.py:35-51 | inserts exactly when the record is unknown |
| SyncServices.CloudTransactionRepository.UpdateIfNewer | backend/app/repositories/cloud_transactions.py:53-75 | updates exactly when the stored client timestamp is older |
| SyncServices.CloudTransactionRepository.DeleteIfNewer | backend/app/repositories/cloud_transactions.py:77-103 | marks deleted, keeping the payload, exactly when the stored client timestamp is older |
| SyncServices.SyncService.UpsertRecord | backend/app/services/sync_service.py:192-246 | the guarded writes perform one upsert and report its status |
| SyncServices.SyncService.DeleteRecord | backend/app/services/sync_service.py:248-289 | the guarded write performs one delete and reports its status |
| SyncServices.SyncService.Push | backend/app/services/sync_service.py:115-142 | applies the batch in order and answers every operation |
| SyncServices.SyncService.Claim | backend/app/services/sync_service.py:47-113 | a repeated claim is answered from its record without touching rows; the same key with another request is refused; a first claim upserts the valid transactions |
| Replica.ChangesResume | backend/app/repositories/cloud_transactions.py:253-276 | the list after the cursor of the k-th row is the rest of the list |
| Replica.ChangesAscend | backend/app/repositories/cloud_transactions.py:272-275 | delivery is strictly increasing in updated_at and, for equal times, in id, so no row is listed twice |
| Replica.PagesContinue | backend/app/services/sync_service.py:153-164 | what a page leaves is the rest of the list, and a last page leaves nothing |
| Replica.PullKeepsInSync | backend/app/services/sync_service.py:144-190 | applying a page keeps the client in sync; after a last page its replica is exact |
| Replica.PushKeepsInSync | backend/app/services/sync_service.py:192-289 | a push stamped later than the cursor keeps the client in sync |
| Replica.CompletePullGivesExactReplica | backend/app/services/sync_service.py:144-190 | however pushes and pulls interleave, a pull without more to come leaves exactly the server's rows and tombstones |
| Replica.WriteReachesClientExactlyWhen | backend/app/repositories/cloud_transactions.py:262-271 | an in-sync client receives a write exactly when its (updated_at, id) is later than the cursor |
| Replica.MissedWriteExample | backend/app/repositories/cloud_transactions.py:262-271 | a row written with an earlier time than the cursor that a complete pull does not deliver |
| Replica.ListChanges | backend/app/repositories/cloud_transactions.py:253-276 | the first `limit` pending rows in delivery order |
| Replica.PullPage | backend/app/services/sync_service.py:153-164 | items, next cursor and has_more of a page |
| Replica.PullAll | backend/app/services/sync_service.py:144-190 | on a fixed store the pages concatenate to the sorted list and the replica becomes exact |
| GroupPush.AtMostOneResource | backend/app/api/routers/groups.py:232-356 | over every run with crashes and retries a key makes at most one expense or settlement |
| GroupPush.AtMostOneEffect | backend/app/api/routers/sync.py:254-295 | a pushed update or delete takes effect at most once |
| GroupPush.AnsweredCreateHasOneEntry | backend/app/api/routers/sync.py:739-762 | once a create is answered with success there is exactly one feed entry for it, showing its resource |
| GroupPush.AnsweredCreatesAgree | backend/app/api/routers/groups.py:160-161 | over every run answered creates with one key sent the same body |
| GroupPush.DifferentBodyChangesNothing | backend/app/api/routers/groups.py:160-161 | over every run a create whose key made something else is refused for good and changes no table |
| GroupPush.RetryRecovers | backend/app/api/routers/sync.py:676-762 | from every reachable state in which the resource is live and its author an active member, one more uninterrupted push is answered, makes nothing new and leaves exactly one feed entry |
| GroupPush.RetrySucceedsExactlyWhen | backend/app/api/routers/groups.py:152-172 | over every run a retry makes no second resource and succeeds exactly when its author is an active member, the body is the same and the resource is not deleted |
| GroupAnswers.AcceptedExactlyWhen | backend/app/api/routers/sync.py:254-295 | a change is accepted exactly when a member sends a new record id and the ledger agrees; accepted means applied, any other answer that no table changed |
| GroupAnswers.SuccessIsRemembered | backend/app/api/routers/sync.py:261-276 | over every run: once a change was answered with success, the same change is a duplicate and any other with its record id a conflict, for every still active member's push, and no table changes |
| GroupAnswers.DuplicateWasApplied | backend/app/api/routers/sync.py:261-276 | duplicate or conflict is answered only where a change of the record id took effect before, duplicate exactly for that change |
| GroupAnswers.ThreeAnswersExample | backend/app/api/routers/sync.py:261-295 | a change, its repetition and another body with its record id: accepted, duplicate, conflict |
| GroupAnswers.ResourceAppearsExactlyWhen | backend/app/api/routers/groups.py:232-356 | a resource appears exactly by an accepted create of a member with a new key |
| GroupAnswers.OutsidersAreRefused | backend/app/api/routers/sync.py:676 | whoever is not a member is refused whatever the tables hold |
| GroupPush.DepartedAuthorCannotRetry | backend/app/api/routers/sync.py:676 | a run in which the author left before the retry: the payment stays without a feed entry |
| GroupPush.OtherBodyCannotRetry | backend/app/api/routers/settlements.py:153-154 | a run in which the retry sends another body |
| GroupPush.DeletedExpenseCannotRetry | backend/app/api/routers/groups.py:166-168 | a run in which the expense was deleted before the retry |
| GroupPush.AppendGivesOwnEntry | backend/app/api/routers/sync.py:205-231 | appending leaves an entry of the operation's own, with its group and kind, exactly when the actor's record id had no entry for another group or kind |
| GroupPush.OwnEntryExactlyWhen | backend/app/api/routers/sync.py:739-762 | over every run, once its feed entry is due, a create has an entry of its own for good exactly when the actor's record id had no entry for another group or kind |
| GroupPush.ReusedRecordHasNoEntry | backend/app/api/routers/sync.py:213-220 | a run in which a record id is reused in another group: the second create is answered and has no entry of its own |
| GroupPush.GroupSyncServer.CreateResource | backend/app/api/routers/settlements.py:175-252 | asks for the membership, then reserves, creates, fills in and commits; or replays |
| GroupPush.GroupSyncServer.AppendGroupChange | backend/app/api/routers/sync.py:205-231 | appends one entry unless the actor's record id has one |
| GroupPush.GroupSyncServer.PushExpenseMutation | backend/app/api/routers/sync.py:279-295 | receipt and feed entry of an accepted change, or a replay, or a conflict |
| GroupPush.GroupSyncServer.PushGroupOperation | backend/app/api/routers/sync.py:648-762 | checks key, owner and membership in this order; an uninterrupted push then performs both commits and leaves an entry in the feed |
| PushedChanges.LedgerIsRunOfEffects | backend/app/api/routers/sync.py:648-762 | over every joint run with crashes, retries and operations of other routes the ledger is the run of the operations that took effect, no idempotency key and no record id of a change took effect twice, each did what its request asked for, and all expenses stay conserved |
| PushedChanges.AnsweredCreateIsInLedger | backend/app/api/routers/groups.py:232-356 | over every joint run an answered create has a resource, and the resource has the ledger row of its kind, group and author; an expense is deleted exactly when its resource is |
| PushedChanges.AnsweredTookEffect | backend/app/api/routers/sync.py:676-762 | over every joint run nothing is answered with success that the ledger has not done for the same key, kind, group and body |
| PushedChanges.PushService.Perform | backend/app/api/routers/sync.py:341-458 | performs exactly the accepted operation on the ledger, or reports that it is refused and changes nothing |
| PushedChanges.PushService.PushCreate | backend/app/api/routers/groups.py:232-356 | ledger row and idempotency record are one commit; a known key never reaches the ledger |
| PushedChanges.PushService.MarkDeleted | backend/app/api/routers/groups.py:162-168 | a deleted expense, and no other, becomes unavailable to replays |
| PushedChanges.PushService.PushChange | backend/app/api/routers/sync.py:279-489 | ledger change, receipt and feed entry are one commit; a known record id never reaches the ledger |
| Sessions.FamilyIsOneChain | backend/app/services/session_service.py:124-141 | over every run a family is one chain with parent and replaced_by inverse, and only its last session can be unrevoked |
| Sessions.ReuseEndsFamily | backend/app/services/session_service.py:107-117 | after a detected reuse the family never has a live session or an accepted access token again |
| Sessions.FirstReuseInvalidatesTokens | backend/app/services/session_service.py:108-110 | no access token issued to the user before a token's first detected reuse is ever accepted afterwards |
| Sessions.RevokeAllInvalidatesTokens | backend/app/services/session_service.py:155-171 | the same after logging out everywhere, a password reset and account deletion |
| Sessions.RepeatedReuseChangesNothing | backend/app/services/session_service.py:107-117 | presenting a revoked token changes nothing exactly when its reuse was detected before |
| Sessions.AcceptedTokensShareSession | backend/app/api/dependencies.py:124-135 | two accepted access tokens of one family belong to the same session |
| SessionAccess.AcceptedExactlyWhen | backend/app/api/dependencies.py:124-135 | over every run a token is accepted exactly when a login or permitted rotation issued it and no event since then ended its access |
| SessionAccess.AccessEndsExactlyWhen | backend/app/services/session_service.py:89-171 | in one step access ends exactly by rotating or logging out of its session, a reuse in its family, a first reuse of the user, a revocation of all sessions, suspension or deletion |
| SessionAccess.AccessBeginsExactlyWhen | backend/app/services/session_service.py:51-87 | access begins exactly with the token that a login or a permitted rotation issues |
| SessionAccess.RotationIssuesExactlyWhen | backend/app/services/session_service.py:118-141 | a rotation issues a session and an accepted token exactly for an unrevoked, unexpired session of an active user |
| SessionAccess.ExpiredSessionIsRevoked | backend/app/services/session_service.py:118-121 | an expired session is revoked and nothing else changes |
| SessionAccess.InvalidRotationChangesNothing | backend/app/services/session_service.py:94-105 | an unknown token, or one of a user who is not active, changes nothing; reuse is detected exactly for revoked sessions |
| SessionAccess.LogoutRevokesOne | backend/app/services/session_service.py:143-166 | logging out of one device revokes that session and nothing else |
| SessionAccess.OverIsOver | backend/app/services/session_service.py:118-166 | over every run no token of a session that was logged out or presented after expiry is accepted again, and no rotation of it succeeds |
| Sessions.SessionService.RevokeFamily | backend/app/repositories/sessions.py:29-46 | revokes and flags exactly the unrevoked sessions of the family |
| Sessions.SessionService.RevokeUserSessions | backend/app/repositories/sessions.py:48-61 | revokes exactly the unrevoked sessions of the user |
| Sessions.SessionService.Issue | backend/app/services/session_service.py:51-87 | adds one session and one access token with the user's current version |
| Sessions.SessionService.RotateToken | backend/app/services/session_service.py:89-141 | performs exactly the specified rotation, reuse detection or expiry |
| Sessions.SessionService.LogoutSession | backend/app/services/session_service.py:143-166 | revokes the session or, for all devices, every session of the user |
| Sessions.SessionService.RevokeAllForUser | backend/app/services/session_service.py:168-171 | raises the version and revokes every session of the user |
| Sessions.SessionService.GetCurrentUser | backend/app/api/dependencies.py:124-135 | accepts exactly the tokens of active users with current version and live session |
| Roles.ExactlyOneOwner | backend/app/services/group_service.py:264-340 | over every run each unarchived group has exactly one active owner |
| Roles.OwnershipMoves | backend/app/services/group_service.py:326-335 | ownership changes only when the owner hands it over and becomes admin, or by succession when the owner's account is deleted |
| Roles.SuccessorIsSenior | backend/app/repositories/groups.py:220-252 | the successor is an admin if there is one, and among equals joined first, then has the lower id |
| Roles.DeletionArchivesExactlyWhen | backend/app/repositories/groups.py:235-242 | deleting the owner's account archives the group exactly when nobody else is active |
| Roles.MembershipEndsOnlyBy | backend/app/services/group_service.py:262-295 | a membership ends only with the account, or at net balance zero by leaving or through a member of strictly higher rank; the owner never departs |
| Roles.ArchivedOnlyBy | backend/app/services/group_service.py:181-198 | a group is archived only by its owner when every net balance is zero, or with the account of its last member, and stays archived |
| Roles.AdminComesFromOwner | backend/app/services/group_invitation_service.py:45-48 | over every run whoever becomes admin was made one by an owner, directly or by an invitation sent earlier |
| Roles.InvitationIsUsedOnce | backend/app/services/group_invitation_service.py:137-142 | an accepted invitation is refused ever after |
| Memberships.AcceptedExactlyWhen | backend/app/services/group_invitation_service.py:131-165 | over every run an invitation lets a user in exactly when an earlier event sent it to the user's verified address, it has not run out or been used, the group is unarchived and the user not active; with the offered role, by a sender entitled to offer it |
| Memberships.InvitationSentExactlyWhen | backend/app/services/group_invitation_service.py:36-64 | an invitation is stored exactly when its sender may grant the role in an unarchived group |
| Memberships.MembershipBeginsExactlyWhen | backend/app/services/group_service.py:200-249 | somebody becomes an active member exactly by an addition through an entitled member or by an invitation for them, with that role and time |
| Memberships.MembershipEndsExactlyWhen | backend/app/services/group_service.py:251-295 | a membership ends exactly with the account, or for a settled member other than the owner by leaving, by the owner, or for a plain member by an admin |
| Memberships.RoleChangesExactlyWhen | backend/app/services/group_service.py:297-340 | a role changes exactly when the owner grants it, the old owner becoming admin, or by succession of the most senior member: admins first, then by joining time, then by id |
| Memberships.ArchivedExactlyWhen | backend/app/services/group_service.py:175-198 | a group is archived exactly by its owner with every net balance zero, or with the account of its last active member |
| Memberships.GroupAppearsExactlyWhen | backend/app/services/group_service.py:342-375 | a group appears exactly when created, or for two different users without a direct group in common; with its owner, members and currency |
| Memberships.OutsidersAreForbidden | backend/app/services/group_service.py:200-262 | every operation on a group answers an outsider the same |
| Memberships.MemberRefusalsHold | backend/app/services/group_service.py:212-295 | a refused addition or removal is refused for a reason that holds |
| Memberships.AcceptRefusalsHold | backend/app/services/group_invitation_service.py:137-161 | a refused acceptance is refused for a reason that holds |
| Memberships.StrangersLearnNothing | backend/app/services/group_invitation_service.py:144-148 | whoever was not invited by verified address gets the same answer whatever group or membership |
| Roles.GroupService.CreateGroup | backend/app/repositories/groups.py:19-43 | a new group with its creator as owner |
| Roles.GroupService.Enter | backend/app/repositories/groups.py:139-166 | a new or departed member enters with the given role and time; an active one does not |
| Roles.GroupService.GetOrCreateDirectGroup | backend/app/services/group_service.py:342-375 | finds a direct group of the two users or creates one |
| Roles.GroupService.AddGroupMember | backend/app/services/group_service.py:200-249 | adds exactly the specified member, or reports the first failing guard |
| Roles.GroupService.BalanceOf | backend/app/services/group_service.py:280-291 | the balance of the user's row in the debt summary, zero without a row |
| Roles.GroupService.RemoveGroupMember | backend/app/services/group_service.py:251-295 | marks exactly the target as departed if the debt summary lists it at zero, or reports the first failing guard |
| Roles.GroupService.UpdateMemberRole | backend/app/services/group_service.py:297-340 | changes or transfers the role, or reports the first failing guard |
| Roles.GroupService.ArchiveGroup | backend/app/services/group_service.py:175-198 | archives an unarchived group whose debt summary lists everybody at zero, or reports the first failing guard |
| Roles.GroupService.CreateInvitation | backend/app/services/group_invitation_service.py:36-64 | stores exactly the specified invitation, or reports the first failing guard |
| Roles.GroupService.AcceptInvitation | backend/app/services/group_invitation_service.py:131-165 | lets the user in and uses the invitation up, or reports the first failing guard |
| Roles.GroupService.FindSuccessor | backend/app/repositories/groups.py:244-251 | the least candidate by role, joining time and id |
| Roles.GroupService.PrepareForUserDeletion | backend/app/repositories/groups.py:190-255 | promotes the successor or archives, in exactly the groups the user owns |
| Roles.GroupService.DeleteUser | backend/app/services/auth_service.py:266-272 | the groups are resolved first, then the user and all memberships disappear |
| Departures.DepartedBalanceChangesExactlyWhen | backend/app/api/routers/sync.py:313-458 | the net balance of somebody not active, and any balance in an archived group, changes in a step exactly when it is a permitted delete of an expense that posts something to them, or a permitted update whose request posts another amount to them than the stored row |
| Departures.DepartedBalanceCanMoveExactlyWhen | backend/app/api/routers/sync.py:313-458 | over all runs without re-entry that balance can still move exactly when a live, unlocked expense posts something to them and somebody in the group may change it |
| Departures.OpenGroupCanMoveExactlyWhen | backend/app/api/routers/sync.py:234-251 | in an unarchived group such an expense alone decides |
| Departures.DepartedBalanceExample | backend/app/services/group_service.py:276-295 | a reachable state: a member who left at zero is owed six after one pushed delete |
| Departures.ArchivedBalanceExample | backend/app/services/group_service.py:187-198 | a reachable state: a group archived with everybody at zero is unsettled after one pushed delete |
| ArchivedGroups.ArchivedBalanceCanMoveExactlyWhen | backend/app/api/routers/sync.py:313-458 | over all runs some balance of an archived group can still move exactly when a live, unlocked expense, which its active creator or an active admin may change, posts something to somebody, or is not itemized while there is an admin or a second active member |
| ArchivedGroups.ArchivedUpdateExample | backend/app/api/routers/sync.py:386-457 | a reachable archived group in which no expense posts anything to anybody: an accepted update puts a member at minus six |

## Left out

- Debts.MinHeap: `heapq` is a library; the model only says that the least item is popped, not how the heap is laid out, nor that the matcher takes O(n log n).
- Debts.Validate: type checks, empty user ids and display names; the model has only well-typed values, and names do not affect any amount.
- Splits.PercentageShares: `Decimal` division is exact for amounts that fit the columns and is modelled as integer floor division; the width of the money columns is not modelled, except for settlements.
- Itemized.ItemizedSplit: the sorting of the resulting shares by user id; they are a table keyed by user.
- Ledger.RunKeepsSound: `expenseShareCreate`, `expenseShareUpdate` and `expenseShareDelete` are not steps of the runs; they compare no share with the total and no settlement with the expense, and `Balances.ShareChangeDrift` states what each of them does to the balances of the group.
- Ledger.LockedExpenseNeverChanges: the receipt part of it is about pushed changes only; deleting an account removes its stored receipts and so clears `receipt` of the expenses created from them (`backend/app/models/cloud_receipt.py:63`, `backend/app/models/group_expense.py:77`). Request-shape validation (unique participants, non-negative shares, positive totals) is a precondition on requests; title, note and date are one field.
- LedgerServices.LedgerService: activity rows, receipt line items and the storage of assignments and extras; a row's position in its table is its id.
- ReceiptDrafts.ItemizedFromDraft: merchant, category, tax and OCR text of the stored receipt.
- DebtSummaries.GetForGroup: display names and `generated_at`; the order in which queries list rows, on which no balance depends.
- Friends.ListFriends: display names and shared group ids of the entries; the order of the direct groups is given.
- SummaryCache.EveryServedSummaryIsUpToDate: requests run one at a time with a reachable cache; concurrent fills, expiry, serialisation and the retry loop of invalidation are not modelled.
- PersonalSync.AppliedChangesGrow: the result rows sent back with each status and `created_at`; the payload is one opaque value, and the operation's timestamp is its payload's.
- Replica.CompletePullGivesExactReplica: the receipt pages that travel in the same response follow the same query but are not modelled; cursors are (time, id) pairs instead of encoded text.
- GroupPush.AnsweredCreateHasOneEntry: `client_record_id` is not reused for a different operation (`GroupPush.OwnEntryExactlyWhen` says what happens when it is); hashes are injective; the legacy idempotency branch, the share operations and the removal of idempotency rows with their user's account are not modelled.
- GroupPush.GroupSyncServer.CreateResource: whether the ledger accepts a request is a parameter of the sync tables' part, here and in `PushExpenseMutation`; `PushedChanges` puts the two together and asks the ledger.
- PushedChanges.LedgerIsRunOfEffects: how a request's body encodes its operation is an arbitrary reading that keeps kind, group and author; the active members the sync tables ask for and those of the ledger are not tied to each other; changes and creates that carry no idempotency key or record id are operations of other routes.
- Sessions.SessionService.RotateToken: device metadata, issue times and the signing and expiry of access tokens; sessions of removed users stay as inert rows.
- Roles.GroupService.RemoveGroupMember: group names and descriptions, and the activity rows; the stored rows are sound, as they are on every run.
- Roles.GroupService.AcceptInvitation: tokens and e-mail delivery; listing pending invitations.
- Group pull: expenses created outside the push are not on the feed and a member who joins late misses older entries, so it is no replica.
- SQL, ORM, Redis, JSON, base64 and hashing; every commit is one atomic step and uncommitted work is discarded.
- Receipt parsing, the assistant, e-mail, OAuth verification, rate limits, the activity feed, migrations and all client code.
