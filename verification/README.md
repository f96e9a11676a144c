# Bid ledger and dashboard model

This Dafny project models the business core of a small procurement-bid
("licitação") management web application. The model covers four parts:

- **Derived values.** A bid's total cost is the sum of its line items'
  quantity times unit cost. Its gross profit is the proposal value (a missing
  value counting as 0) minus that cost. Its margin is profit over proposal, in
  percent, when the proposal is positive, and 0 otherwise.
- **Cost posting** (`lancar_custo`). Posting a bid's cost appends one debit of
  that cost to the cash ledger and marks the bid Competing (`Participando`).
  Nothing changes when the cost is not positive. Nothing changes when an entry
  of the bid already carries exactly minus the current cost.
- **Outcome update** (`update_licitacao`). It always overwrites the proposal
  value and the status. On a move *into* Lost or Cancelled from any other
  status, it credits back the magnitude of the bid's first negative ledger
  entry.
- **Ledger and dashboard.** A manual ledger entry flips its sign for a
  `"debito"`. The balance is the sum of all amounts. The dashboard computes
  its indicators over the bids opened inside an inclusive date window:
  - the competed/won counts, success rate, revenue, gross profit and average
    ticket;
  - the status funnel;
  - the sparse, chronologically sorted monthly revenue series;
  - the top five clients by wins.

The application's store becomes an immutable value, `Ledger.State`. It holds
the bids in store order and the ledger entries in insertion order. Every
request handler becomes a pure function from a state to a new state, or to a
`Result` whose `Failure` is the 404 of an unknown bid id.

Modules, leaves first:

| file | module | contents |
|---|---|---|
| wrappers.dfy | `Wrappers` | `Option`, `Result` |
| bids.dfy | `Bids` | statuses, dates, bids, line items; cost, profit, margin |
| ledger.dfy | `Ledger` | ledger entries, the store, posting, outcome update, manual entries, line items |
| ledger_properties.dfy | `LedgerProperties` | idempotence, edge trigger, post-then-lose netting to zero |
| windows.dfy | `Windows` | the date window and the counts and sums over it |
| kpis.dfy | `Kpis` | the indicator set and the status funnel |
| monthly.dfy | `MonthlyRevenue` | the monthly revenue series |
| clients.dfy | `TopClients` | the client ranking |
| scenarios.dfy | `Scenarios` | two worked examples |

Three behaviours of the code are worth stating explicitly:

- The margin is 0 for any proposal that is not positive, negative ones
  included, because `margem_lucro` tests `valor_prop > 0` (app.py:76).
- "Already posted" and "nothing to post" only warn and leave the store
  unchanged (app.py:233-235, 246-247). The model returns them as
  `PostOutcome` values next to the unchanged state.
- Nothing is posted for any cost that is not positive (app.py:231).

## Model

| member | source | states |
|---|---|---|
| Bids.LineTotal | app.py:87-89 | a line item's cost is its quantity times its unit cost |
| Bids.TotalCost | app.py:61-66 | 0 with no items, which agrees with the empty sum, so the cost is always the sum of the line totals; it is non-negative when no item has a negative quantity or unit cost |
| Bids.ProposalOrZero | app.py:70 | `valor_proposta or 0.0`: 0 exactly when the value is absent or zero, and the value itself whenever present |
| Bids.GrossProfit | app.py:68-71 | proposal minus cost: equal to the proposal for a bid without items, and never above it when no item is negative |
| Ledger.Balance | app.py:142 | definition of the current balance (also app.py:254): the sum of all entry amounts; characterized by BalanceAppend, AddManualEntry and PostThenLoseNetsZero |
| Windows.WonRevenue | app.py:302 | definition of the revenue: the won bids' proposals summed, a missing one as 0; characterized by AggregatesAppend and ComputeKpis |
| Windows.WonProfit | app.py:304-305 | definition of the gross profit total: the won bids' gross profits summed; WonProfitSplit shows it is revenue minus cost |
| Bids.Margin | app.py:73-78 | for a positive proposal the margin times the proposal is 100 times the gross profit; otherwise the margin is 0 |
| Bids.TimesIsProduct | app.py:87-89 | a line item's total, computed by repeated addition, equals quantity times unit cost |
| Bids.CostOfNonNegative | app.py:61-66 | line items with non-negative quantity and unit cost give a non-negative total cost |
| Bids.CostOfAppend | app.py:61-66 | the cost of a concatenation of item lists is the sum of their costs |
| Bids.AppendItemCost | app.py:61-71 | adding a line item raises the total cost by its line total and lowers the gross profit by the same amount |
| Bids.NoItemsValues | app.py:61-78 | a bid without items has cost 0 and profit equal to its proposal; its margin is 100 for a positive proposal and 0 otherwise |
| Bids.MarginAtMostHundred | app.py:68-78 | with non-negative items and a positive proposal, the margin is 100 minus cost over proposal times 100, so at most 100 |
| Ledger.FindBid | app.py:169 | the lookup returns the first position holding the id, or None exactly when no bid has it |
| Ledger.FirstDebit | app.py:177 | returns the first ledger position with a negative amount that references the bid, or None exactly when there is none |
| Ledger.PostCostAt | app.py:228-248 | nothing changes unless the outcome is Posted; NothingToPost iff cost <= 0; AlreadyPosted iff cost > 0 and an entry of the bid carries exactly -cost; when Posted, exactly that bid becomes Competing and exactly one debit of -cost referencing it is appended |
| Ledger.PostCost | app.py:225-248 | fails iff no bid has the id; otherwise it posts at the first matching bid and keeps that bid findable at the same place |
| Ledger.UpdateOutcome | app.py:166-189 | fails iff the id is unknown; otherwise only that bid changes, getting the new proposal and status. On entering Lost/Cancelled with a debit present, one credit of the first debit's magnitude is appended. In every other case the ledger is unchanged |
| Ledger.AddManualEntry | app.py:257-273 | bids unchanged; exactly one unreferenced entry appended, negated iff the kind is "debito"; the balance moves by that signed amount and no bid's balance changes |
| Ledger.AddLineItem | app.py:200-213 | fails iff the id is unknown; otherwise only that bid gains the item, the ledger is unchanged, and its cost grows by the line total |
| Ledger.FindBidAfterChange | app.py:169 | replacing a bid by one with the same id keeps every lookup's answer |
| Ledger.BalanceAppend | app.py:142 | the balance (sum of all amounts) of a concatenation is the sum of the balances |
| Ledger.BidBalanceAppend | app.py:176-184 | a bid's ledger total (a reference sum of the entries carrying its id, the entries the debit and the reversal create) over a concatenation is the sum of its totals |
| Ledger.UnreferencedEntryKeepsBidBalances | app.py:266-269 | an entry referencing no bid changes no bid's ledger total |
| LedgerProperties.FirstDebitAfterAppend | app.py:177 | with no debit yet, after an append the first debit is the new entry exactly when it is a debit of the bid |
| LedgerProperties.NoDebitNoNegativeEntry | app.py:232 | with no negative entry for the bid, no entry matches a negative amount, so the duplicate guard cannot fire |
| LedgerProperties.HasEntryAfterAppend | app.py:232 | the duplicate guard matches after an append iff it matched before or the new entry has that bid and amount |
| LedgerProperties.UnreferencedBidBalance | app.py:237-244 | a bid no entry references has ledger total 0 (a reference sum over the entries carrying its id) |
| LedgerProperties.PostedShape | app.py:237-244 | posting a positive cost that has not been posted yields exactly the bid set Competing and the ledger plus one debit |
| LedgerProperties.PostCostIdempotent | app.py:231-235 | after any posting of a known bid, posting again succeeds, does not post and changes nothing, so the two calls add at most one entry |
| LedgerProperties.PostTwiceAddsOneDebit | app.py:231-244 | two postings in a row append exactly one debit and report Posted then AlreadyPosted |
| LedgerProperties.RepeatedLossAppendsNothing | app.py:176 | an update into Lost/Cancelled right after one into Lost/Cancelled leaves the ledger as it was |
| LedgerProperties.LossAfterReopenCreditsAgain | app.py:176-184 | a bid with a debit that is lost, reopened to another status and lost again gets one more credit of its first debit's magnitude: the trigger is an edge, not a one-time latch |
| LedgerProperties.FirstDebitPrefix | app.py:177 | appending entries keeps an existing first debit of the bid where it was |
| LedgerProperties.PostThenLoseNetsZero | app.py:176-185 | for a bid with no debit yet, posting then losing adds a debit and an equal credit: the bid's total and the overall balance return to their values before |
| LedgerProperties.PostThenLoseFreshBid | app.py:176-185 | for a bid no entry references, post-then-lose leaves its ledger total at 0 |
| LedgerProperties.ChangedCostPostsAgain | app.py:231-244 | after a posting and a new positive line item, posting again posts a second debit (the guard matches by exact amount): two entries are added and the bid's total falls by twice the old cost plus the line total |
| Windows.InWindow | app.py:296 | the window keeps exactly the bids whose opening date lies between its inclusive bounds |
| Windows.CountInSubset | app.py:299-300 | counting over more statuses never counts fewer bids |
| Windows.CountInUnion | app.py:299 | counting over Won or Lost is the Won count plus the Lost count |
| Windows.StatusCountsPartition | app.py:311 | the five per-status counts add up to the number of bids |
| Windows.WonProfitSplit | app.py:304-305 | the won bids' summed gross profit is their revenue minus their cost |
| Windows.InWindowAppend | app.py:296 | window filtering distributes over concatenation |
| Windows.InWindowIdempotent | app.py:296 | filtering by the window twice is filtering once |
| Windows.AggregatesAppend | app.py:299-305 | counts, revenue and cost of a concatenation are the sums of the parts' |
| Kpis.SuccessRate | app.py:301 | 0 when nothing competed; otherwise rate times competed is 100 times won, and it lies in [0, 100] when won <= competed |
| Kpis.AverageTicket | app.py:308 | 0 when nothing was won; otherwise ticket times won is the revenue |
| Kpis.ComputeKpis | app.py:296-308 | won counts the window's Won bids; competed counts its Won and Lost bids and is at least won; the rate is in [0, 100]; revenue is the won proposals' sum; gross profit is revenue minus won cost; the ticket is the revenue per win |
| Kpis.KpisIgnoreOutside | app.py:296 | a bid opened outside the window changes no indicator |
| Kpis.AggregatesAppendOne | app.py:299-305 | one more bid raises its status's count by one, and revenue and cost by its values when it is Won |
| Kpis.WindowAppendInside | app.py:296 | a bid opened inside the window is appended to the window's bids |
| Kpis.KpisAppendWon | app.py:299-305 | a won bid inside the window raises competed and won by one, revenue by its proposal and gross profit by its gross profit |
| Kpis.KpisAppendLost | app.py:299-305 | a lost bid inside the window raises competed by one and leaves won, revenue and profit unchanged |
| Kpis.KpisAppendUndecided | app.py:299-305 | a bid inside the window that is neither Won nor Lost changes no indicator |
| Kpis.EveryStatusListed | app.py:311 | the funnel's status order lists every status |
| Kpis.Stages | app.py:311-313 | each stage carries a positive count equal to its status's count; the stage counts add up to the counts over the listed statuses |
| Kpis.StagesComplete | app.py:311 | every listed status with a positive count gets a stage |
| Kpis.StagesDistinct | app.py:311 | over a list of distinct statuses the stages' statuses are distinct |
| Kpis.CountsOverAllStatuses | app.py:311 | counting over all five statuses counts every bid |
| Kpis.Funnel | app.py:311-313 | one stage per status present in the window, none for absent ones, each with its exact positive count, no status twice, and the counts summing to the number of bids in the window |
| MonthlyRevenue.Deposit | app.py:315-318 | adding revenue to a month keeps the series strictly ascending, adds the month to its months and the value to its total, and raises that month's revenue alone |
| MonthlyRevenue.Series | app.py:315-322 | the series is strictly ascending, totals the won revenue, and records for each month the revenue of the bids won in it |
| MonthlyRevenue.SeriesMonths | app.py:315-318 | the series has a bucket exactly for the months with a won bid |
| MonthlyRevenue.AscendingPairwise | app.py:320 | a strictly ascending series is ordered pairwise |
| MonthlyRevenue.BucketHoldsMonth | app.py:318-322 | in an ascending series a bucket holds all of its month's revenue |
| MonthlyRevenue.MonthlySeries | app.py:315-322 | months strictly ascending; one bucket for each month with a won bid in the window and none for other months; each bucket holds that month's won revenue; buckets total the window's revenue |
| TopClients.Bump | app.py:324-326 | counting one more win for a client keeps the tally distinct and positive and raises that client's wins alone |
| TopClients.Tally | app.py:324-326 | one entry per client with a win, no client twice, each with its exact win count |
| TopClients.ListedIffWins | app.py:324-326 | in a positive tally a client is listed iff it has wins |
| TopClients.Insert | app.py:326 | inserting into a non-increasing list keeps it non-increasing and adds exactly the inserted entry |
| TopClients.SortByWins | app.py:326 | the sorted tally is a permutation of the tally, in non-increasing order of wins, with the same clients |
| TopClients.RankedClients | app.py:324-326 | ranking in non-increasing wins with no client twice; every client with a win in the window appears with its exact count |
| TopClients.Top | app.py:326 | exactly the first min(5, n) entries of the ranking, in order |
| TopClients.LeftOutOfTop | app.py:326 | an entry of a non-increasing ranking left out of the top has no more wins than the fifth entry, which exists |
| TopClients.TopClientsIn | app.py:324-329 | at most five clients, non-increasing wins, no client twice, exact positive win counts; any client with a win that is left out has no more wins than the fifth, and five are listed |
| Scenarios.CostPostAndLossScenario | app.py:166-248 | with the values of app.py:61-78, items 2 x 1000 and 1 x 500 on a proposal of 10000 give cost 2500, profit 7500, margin 75; posting debits 2500; losing credits 2500 and the balance returns to 0 |
| Scenarios.DashboardScenario | app.py:296-322 | one Won bid of 5000 and one Lost bid in March 2024 give 2 competed, 1 won, rate 50, revenue 5000, ticket 5000 and one March bucket of 5000 |

## Left out

- Authentication, user accounts, the login and logout routes, sessions and templates: plumbing around the core.
- Database configuration and transaction handling. Each operation is one pure function, so a single request's changes take effect together or not at all. Concurrent requests are the next item.
- Requests are modelled as running one at a time. In the code, concurrent postings of one bid can each pass the duplicate check before either commits (app.py:232-244), and concurrent updates into Lost or Cancelled can each read a non-lost previous status and each append a credit (app.py:170-184). The idempotence and edge-trigger lemmas (PostCostIdempotent, PostTwiceAddsOneDebit, RepeatedLossAppendsNothing) cover sequential requests only.
- Creating a bid (app.py:145-158) and deleting a bid or a line item (app.py:191-223) are plain record management and are not modelled. Adding a line item, adding a manual entry and updating a bid's outcome are modelled.
- Entry timestamps, and the listing orders by date, are presentation and clock I/O.
- Description strings become the `Memo` datatype. This covers the debit text, the reversal text naming the status, and a manual entry's text.
- Request parsing is not modelled. That covers the float/int conversion of form fields, date parsing, and the default window of the current year so far, which needs a clock. The window is a parameter.
- The `'%b/%y'` labels of the monthly chart are not modelled. That formatting has no logic to verify.
- Status is a closed datatype of the five labels the logic writes or tests. The source stores any submitted string.
- Floating-point rounding is not modelled: money is `real`, and Python's float division is real division.
- Database order is not modelled. Ledger order is insertion order, and `.first()` of an unordered query is taken as the first entry in that order.
- MonthlyRevenue.Earlier: orders months as (year, month). That is the order of the sorted `'%Y-%m'` keys only for four-digit years.
- Kpis.Funnel: lists stages in the fixed order Under review, Competing, Won, Lost, Cancelled. The source's group-by order is left to the database.
- TopClients.TopClientsIn: does not state the order among clients with equal win counts. The source leaves ties to the database.
