# Sales back office — a Dafny model

This project models the core of a sales-management back office: a Laravel API
and two stores of its Vue frontend.

- **Sales.** Sellers record sales. Each sale earns an 8.5 % commission, rounded
  to the cent. The model hooks keep the commission derived from the amount
  when a sale is created without one, and whenever its amount changes.
- **Sales service.** It lists sales filtered by seller, date range and amount
  range, latest first, in pages of 20 when no page size is sent. It creates, updates and
  deletes sales. It builds two read-only reports: the summary of one day with
  a per-seller breakdown, and the dashboard figures (all-time totals, the
  current and previous calendar month, the 20 most recent sales).
- **Sellers.** Each seller reports its count of sales, amount total and
  commission total for a date. The sellers service lists sellers with their
  sale count and commission sum, searched by name or e-mail prefix. It also
  creates, updates and deletes sellers.
- **Validation.** The update request validates a partial sale update.
- **Controller.** The sale controller picks the summary's date, picks the
  date of a resent commission mail, and answers an update with the reloaded
  row.
- **Daily e-mails.** A console command queues one commission job per seller
  and one sales-report job per 'Gestor' user. Each job sends one mail.
- **Students store** (frontend). It filters students by a case-insensitive
  search, a status and a course. It counts them, lists the courses, and keeps
  its list in line with the server's answers.
- **Notifications store** (frontend). It appends toasts with a time-based id
  and a default duration, and removes the first toast with a given id.

Modelling conventions:

- Money is whole cents (`int`), so the `decimal:2` columns are exact.
- Dates are day numbers.
- The current day, the clock reading and the two month windows are
  parameters.
- The database tables are sequences in storage order.
- Objects the source changes in place are classes:
  - the sales ledger and the seller register;
  - the job queue and the mailer's outbox;
  - the two frontend stores.
- Dispatching a job or sending a mail appends a record to the queue or the
  outbox.
- Server answers seen by the frontend stores are `Result` parameters of the
  actions.

One module per source file: `SaleModel`, `SellerModel`, `SaleService`,
`SaleStatistics` (the reports of the sales service), `SellerService`,
`UpdateSaleRequest`, `SaleController`, `SendDailyCommissionJob`,
`SendDailySalesReportJob`, `SendDailyEmailsCommand`, `StudentsStore`,
`NotificationsStore`. Shared modules:

- `Common`: options, results, decimal digits, sub-lists and pages.
- `SaleQuery`: `where`, `count`, `sum`, `orderBy` and `limit` over the sales
  table.
- `Queue`: the job queue.
- `Mailing`: the outbox.

## Model

| member | source | states |
|---|---|---|
| SaleModel.CalculateCommission | app/Models/Sale.php:37-40 | the commission is the whole number of cents nearest to 8.5 % of the amount, a tie going away from zero, for positive and negative amounts |
| SaleModel.CommissionIsNearest | app/Models/Sale.php:37-40 | the rounding contract admits exactly one value, the computed commission |
| SaleModel.CommissionExamples | app/Models/Sale.php:37-40 | 1000.00 earns 85.00, 2000.00 earns 170.00, 1500.00 earns 127.50, 300.00 earns 25.50, 500.00 earns 42.50 |
| SaleModel.CommissionBounds | app/Models/Sale.php:37-40 | on a non-negative amount the commission is between 0 and the amount |
| SaleModel.CommissionMonotone | app/Models/Sale.php:37-40 | a larger amount never earns a smaller commission |
| SaleModel.CommissionOdd | app/Models/Sale.php:37-40 | negating the amount negates the commission |
| SaleModel.DecimalString | app/Models/Sale.php:20-22 | the cast text of an amount has exactly two decimals after a '.', and a leading '-' exactly when negative |
| SaleModel.UnsignedRoundTrip | app/Models/Sale.php:20-22 | the unsigned two-decimal text reads back as the same number of cents |
| SaleModel.DecimalStringRoundTrip | app/Models/Sale.php:20-22 | every amount, of either sign, reads back from its cast text unchanged |
| SaleModel.DecimalStringExamples | app/Models/Sale.php:20-22 | 100000, 8500 and 12750 cents are cast to "1000.00", "85.00" and "127.50" |
| SaleModel.CreatingCommission | app/Models/Sale.php:49-53 | a supplied commission, zero included, is stored as given (the `decimal:2` cast of line 22 makes it a non-empty string); a missing one is replaced by the rule's |
| SaleModel.SuppliedZeroCommissionKept | app/Models/Sale.php:49-53 | a commission supplied as 0 is stored as 0, not replaced by the rule |
| SaleModel.Updating | app/Models/Sale.php:55-59 | the commission is recomputed exactly when the amount changed, and no other attribute is touched |
| SaleQuery.Where | app/Services/SaleService.php:21-43 | a `where` never returns more rows than the table holds |
| SaleQuery.WhereMembers | app/Services/SaleService.php:21-43 | a row is returned if and only if it is stored and satisfies the condition |
| SaleQuery.WhereInOrder | app/Services/SaleService.php:21-43 | the returned rows keep their storage order |
| SaleQuery.WhereAll | app/Services/SaleService.php:18-43 | a query built from several `where` calls returns exactly the rows satisfying all of them |
| SaleQuery.WhereMultiset | app/Services/SaleService.php:21-43 | `where` keeps every copy of a passing row and no copy of a failing one |
| SaleQuery.WhereAllMultiset | app/Services/SaleService.php:18-43 | chained `where` calls keep every copy of a row meeting all conditions and no copy of any other |
| SaleQuery.WhereConcat | app/Services/SaleService.php:21-43 | filtering two parts of a table and joining the results is filtering the whole |
| SaleQuery.WhereSkip | app/Services/SaleService.php:21-43 | a row failing the condition leaves the result as if it were not stored |
| SaleQuery.WhereKeep | app/Services/SaleService.php:21-43 | a row satisfying the condition appears in the result at its own place |
| SaleQuery.WhereCommute | app/Services/SaleService.php:21-43 | the order of two `where` calls does not change the result |
| SaleQuery.WhereIdempotent | app/Services/SaleService.php:21-43 | repeating a `where` changes nothing |
| SaleQuery.WhereOtherSeller | app/Services/SaleService.php:168 | removing the rows of one seller leaves the rows of every other seller as they were |
| SaleQuery.TotalsOf | app/Services/SaleService.php:105-108 | `count()` of the rows is their number |
| SaleQuery.TotalsConcat | app/Services/SaleService.php:105-108 | count and sums over two parts of a table add up to those over the whole |
| SaleQuery.TotalsSplitBySeller | app/Services/SaleService.php:164-176 | the count and sums of the rows are those of one seller's rows plus those of the others |
| SaleQuery.SplitStep | app/Services/SaleService.php:164-176 | the split of the sums survives putting one more row in front |
| SaleQuery.TotalsWithRow | app/Services/SaleService.php:164-166 | a stored row satisfying the condition adds one to the count and its amount and commission to the sums |
| SaleQuery.NoRowsNoTotals | app/Services/SaleService.php:164-166 | a query matching no row returns nothing, counts 0 and sums to 0 |
| SaleQuery.Insert | app/Services/SaleService.php:47 | inserting a row adds exactly that row to the multiset of rows |
| SaleQuery.InsertSorted | app/Services/SaleService.php:47 | inserting into a sorted list keeps it sorted |
| SaleQuery.SortBy | app/Services/SaleService.php:47 | ordering is a permutation of the rows |
| SaleQuery.SortBySorted | app/Services/SaleService.php:141-143 | the ordered rows are sorted by sale date, latest first (and by creation time for the dashboard) |
| SaleQuery.Limit | app/Services/SaleService.php:144 | `limit(n)` keeps the first n rows, or all when fewer |
| SellerModel.SalesOn | app/Models/Seller.php:33-38 | the rows of the seller on a date are never more than the table |
| SellerModel.SalesCountForDate | app/Models/Seller.php:53-58 | the count is at most the number of stored sales |
| SellerModel.SalesOnMembers | app/Models/Seller.php:33-58 | the three figures are taken over exactly the seller's rows dated that day |
| SellerModel.OtherRowsIgnored | app/Models/Seller.php:33-58 | a row of another seller or another date changes none of the three figures |
| SellerModel.MatchingRowAdds | app/Models/Seller.php:33-58 | a row of the seller on that date adds one to the count, its amount to the total and its stored commission to the commission total |
| SellerModel.ZeroWithoutSales | app/Models/Seller.php:33-58 | the count is 0 if and only if the seller has no row that day, and then both sums are 0 |
| SellerModel.StoredCommissionSummed | app/Models/Seller.php:43-48 | the commission total sums the stored commissions, even one that differs from the rule |
| SellerModel.SameDayExample | app/Models/Seller.php:33-58 | sales of 1000.00, 500.00 and 300.00 on one day, plus one of another day, give 3 sales, 1800.00 and 153.00 |
| SaleService.ConditionsMeanFilters | app/Services/SaleService.php:21-43 | the `where` calls the listing adds hold for a sale if and only if every filled filter holds, bounds inclusive |
| SaleService.ListSales | app/Services/SaleService.php:16-47 | the listing holds exactly the sales passing the filters, each as often as it is stored, latest sale date first |
| SaleService.NoFiltersListsAll | app/Services/SaleService.php:21-43 | without filters the listing is a permutation of all sales |
| SaleService.PageSorted | app/Services/SaleService.php:47 | a page of a sorted listing is sorted |
| SaleService.GetAll | app/Services/SaleService.php:16-48 | page `p` is exactly the window of the filtered listing (latest first) that starts at `(p - 1) * per_page`: `per_page` sales, fewer on the last page, none past the end; it is sorted; page 1 of a long enough listing holds exactly 20 when no `per_page` is sent and 15 when it is sent empty |
| SaleService.SaleOnSomePage | app/Services/SaleService.php:47 | every sale that passes the filters appears on some page of the listing |
| SaleService.Patched | app/Services/SaleService.php:60-68 | an update keeps the id and creation time of the row |
| SaleService.UpdateStoresPatched | app/Services/SaleService.php:60-68 | the service step, the fill and the `updating` hook together store the patched row |
| SaleService.PatchedAmountDerivesCommission | app/Services/SaleService.php:63-65 | an update with an amount stores that amount and the rule's commission for it |
| SaleService.PatchedKeepsCommission | app/Services/SaleService.php:60-67 | an update without amount or commission keeps the stored commission, and a row following the rule still follows it |
| SaleService.PatchedIdempotent | app/Services/SaleService.php:60-68 | applying an update twice is applying it once |
| SaleService.WithoutId | app/Services/SaleService.php:80 | deleting never adds rows |
| SaleService.WithoutIdMembers | app/Services/SaleService.php:80 | after the delete a row remains if and only if it was stored and has another id |
| SaleService.DeleteRemovesOne | app/Services/SaleService.php:80 | with distinct ids, the delete removes exactly the one row with that id and keeps the others in order |
| SaleService.WithoutIdNone | app/Services/SaleService.php:80 | deleting an id that is not stored changes nothing |
| SaleService.WithoutIdAscending | app/Services/SaleService.php:80 | deleting keeps the ids increasing |
| SaleService.SaleLedger.Create | app/Services/SaleService.php:50-58 | the new row is appended under the next id; a missing commission becomes the rule's, a supplied one (zero included) is kept; ids stay distinct and increasing |
| SaleService.SaleLedger.Update | app/Services/SaleService.php:60-68 | the row with that id, if any, becomes its patched self and nothing else changes; with an amount its commission follows the rule |
| SaleService.SaleLedger.Delete | app/Services/SaleService.php:70-83 | the row with that id, if any, is removed and the others stay in order |
| SaleStatistics.GroupBySeller | app/Services/SaleService.php:168-176 | there are never more groups than rows |
| SaleStatistics.DailySalesSummary | app/Services/SaleService.php:158-185 | the summary carries the requested date and counts at most every stored sale |
| SaleStatistics.GroupsAddUp | app/Services/SaleService.php:164-176 | the per-seller counts and sums add up to the day's count and sums |
| SaleStatistics.GroupIdsAreSellers | app/Services/SaleService.php:168 | each seller with a sale that day has exactly one entry, and no other seller has one |
| SaleStatistics.GroupEntrySums | app/Services/SaleService.php:168-175 | each entry holds the count and sums of all its seller's rows |
| SaleStatistics.DailySummaryAddsUp | app/Services/SaleService.php:164-176 | the breakdown adds up to the summary's count, amount and commission |
| SaleStatistics.DailyEntryIsSellerFigures | app/Services/SaleService.php:168-175 | a seller's entry carries the same figures as the seller's own per-date methods |
| SaleStatistics.OtherDatesIgnored | app/Services/SaleService.php:160-162 | a sale of another date changes nothing in the summary |
| SaleStatistics.EmptyDay | app/Services/SaleService.php:158-185 | a day without sales gives 0 sales, 0.00, 0.00 and no entries |
| SaleStatistics.TwoSellersExample | app/Services/SaleService.php:158-185 | three sales of two sellers give two entries, of 2 sales and of 1 sale |
| SaleStatistics.CountWithSales | app/Services/SaleService.php:121-123 | the month's seller count is at most the number of sellers |
| SaleStatistics.MonthStatsOf | app/Services/SaleService.php:119-127 | a month's counts are bounded by the registered sellers and the stored sales |
| SaleStatistics.RecentSales | app/Services/SaleService.php:141-145 | the recent list holds min(20, number of sales) of the stored sales, none more often than it is stored, by sale date then creation time, latest first |
| SaleStatistics.Dashboard | app/Services/SaleService.php:99-156 | the totals count every seller and every sale, and at most 20 recent sales are listed |
| SaleStatistics.RecentAreLatest | app/Services/SaleService.php:141-145 | a sale left out of the recent list is no more recent than any listed sale |
| SaleStatistics.MonthOutsideIgnored | app/Services/SaleService.php:119-138 | a sale outside a month window changes nothing in that month's figures |
| SaleStatistics.CountWithSalesIsDistinct | app/Services/SaleService.php:121-123 | the month's seller count is the number of distinct sellers with a sale in the window |
| SellerService.Searched | app/Services/SellerService.php:27-33 | a seller is listed if and only if it is registered and the search, when given, matches it |
| SellerService.SearchedInOrder | app/Services/SellerService.php:27-33 | the search keeps register order |
| SellerService.NoSearchListsAll | app/Services/SellerService.php:27 | a missing or empty search lists every seller |
| SellerService.SearchKeepsPrefixMatches | app/Services/SellerService.php:29-32 | a non-empty search keeps exactly the sellers whose name or e-mail starts with it |
| SellerService.RowOf | app/Services/SellerService.php:24-25 | a listing row is about its own seller |
| SellerService.RowOfWithoutSales | app/Services/SellerService.php:24-25 | the count is 0 exactly when the seller has no sale, and then the commission sum is null |
| SellerService.RowOfAddsSale | app/Services/SellerService.php:24-25 | one more sale of the seller adds one to its count and its commission to its sum |
| SellerService.ListSellers | app/Services/SellerService.php:16-33 | the listing has one row per searched seller, in order, each with that seller's count and sum |
| Common.PerPage | app/Services/SaleService.php:45-47 | the page size is 20 when `per_page` is not sent, the model's 15 when it is sent empty or 0, and the number sent otherwise |
| SellerService.GetAll | app/Services/SellerService.php:14-38 | page `p` is exactly the window of the seller listing that starts at `(p - 1) * per_page`: `per_page` rows, fewer on the last page, none past the end; each row is a registered seller matching the search, with its own count and sum |
| SellerService.SellerOnSomePage | app/Services/SellerService.php:37 | every seller matching the search appears, with its count and sum, on some page of the listing |
| SellerService.SalesBySeller | app/Services/SellerService.php:55-67 | a sale is returned if and only if it is the seller's and within each bound that is present (the sales service's `getSalesBySeller`, app/Services/SaleService.php lines 85 to 97, is the same query) |
| SellerService.SalesBySellerInOrder | app/Services/SellerService.php:55-67 | the seller's sales come back in storage order |
| SellerService.UpdatedSeller | app/Services/SellerService.php:45-48 | the supplied attributes replace the stored ones, the others and the id stay |
| SellerService.RemovedInOrder | app/Services/SellerService.php:50-53 | removing one seller keeps the others in order, with increasing ids, and none of them has the removed id |
| SellerService.SellerRegistry.Create | app/Services/SellerService.php:40-43 | the seller is appended under the next id |
| SellerService.SellerRegistry.Update | app/Services/SellerService.php:45-48 | only that seller changes, and only in the supplied attributes |
| SellerService.SellerRegistry.Delete | app/Services/SellerService.php:50-53 | that seller leaves the register and the others stay in order |
| UpdateSaleRequest.Authorize | app/Http/Requests/UpdateSaleRequest.php:12-15 | every user may send the request |
| UpdateSaleRequest.SellerIdFailure | app/Http/Requests/UpdateSaleRequest.php:25 | a failure of `seller_id` names one of its rules |
| UpdateSaleRequest.AmountFailure | app/Http/Requests/UpdateSaleRequest.php:26 | a failure of `amount` names one of its rules |
| UpdateSaleRequest.SaleDateFailure | app/Http/Requests/UpdateSaleRequest.php:27 | a failure of `sale_date` names one of its rules |
| UpdateSaleRequest.Validate | app/Http/Requests/UpdateSaleRequest.php:22-46 | the request passes if and only if no field fails; the patch then holds each sent field's value and nothing for the fields not sent (never a commission), so a known seller, at least 0.01 and a date no later than today; otherwise 1 to 3 errors with the table's messages |
| UpdateSaleRequest.NothingSentPasses | app/Http/Requests/UpdateSaleRequest.php:25-27 | a request sending no field passes with an empty patch |
| UpdateSaleRequest.EmptyFieldRequired | app/Http/Requests/UpdateSaleRequest.php:26 | an amount sent empty fails as required, with its message |
| UpdateSaleRequest.ErrorsNameFailingFields | app/Http/Requests/UpdateSaleRequest.php:22-46 | a field is reported if and only if it fails, with the rule it fails |
| UpdateSaleRequest.AmountBoundary | app/Http/Requests/UpdateSaleRequest.php:26 | 0.01 passes, 0.00 fails with "The amount must be at least 0.01." |
| UpdateSaleRequest.DateBoundary | app/Http/Requests/UpdateSaleRequest.php:27 | today passes, tomorrow fails with "The sale date must be today or earlier." |
| SaleController.DailySummaryDate | app/Http/Controllers/Api/SaleController.php:60 | the sent date; today only when no date was sent; nothing (null) when it was sent empty |
| SaleController.DailySummaryAction | app/Http/Controllers/Api/SaleController.php:58-62 | the summary of the sent day, of today when no date was sent, counting that day's sales; a server error exactly when the date was sent empty, since `getDailySalesSummary(string $date)` refuses null |
| SaleController.LatestSaleDate | app/Http/Controllers/Api/SaleController.php:70 | there is a latest date if and only if there are rows; it is some row's date and no row is later |
| SaleController.ResendDate | app/Http/Controllers/Api/SaleController.php:67-72 | the requested date; else the seller's latest sale date; else today |
| SaleController.ResendCommissionEmail | app/Http/Controllers/Api/SaleController.php:64-81 | exactly one commission job is queued, for the seller and the chosen date, and the answer echoes the message, the seller's name and the date |
| SaleController.ResendDateHasSale | app/Http/Controllers/Api/SaleController.php:69-72 | without a requested date, a seller with sales is mailed about a day on which it sold |
| SaleController.Update | app/Http/Controllers/Api/SaleController.php:41-45 | an unknown sale is 404 before validation; a failing request is 422 with its errors and changes nothing; otherwise the sale is patched and the stored row is returned |
| Queue.JobQueue.Dispatch | app/Console/Commands/SendDailyEmailsCommand.php:27 | a dispatched job joins the end of the queue |
| Mailing.Mailer.Send | app/Jobs/SendDailyCommissionJob.php:26-34 | a sent mail joins the end of the outbox with its recipient |
| SendDailyCommissionJob.Handle | app/Jobs/SendDailyCommissionJob.php:20-35 | exactly one mail goes out, to the seller, with its count, amount total and commission total for the date |
| SendDailyCommissionJob.ZeroSaleDay | app/Jobs/SendDailyCommissionJob.php:22-24 | a day without the seller's sales is mailed as 0 sales, 0.00 and 0.00 |
| SendDailyCommissionJob.OtherSalesExcluded | app/Jobs/SendDailyCommissionJob.php:22-24 | sales of other sellers or other days do not change the mail |
| SendDailyCommissionJob.SaleOfTheDayAdds | app/Jobs/SendDailyCommissionJob.php:22-24 | one more sale of the seller that day counts once more and adds its amount and its commission |
| SendDailyCommissionJob.MailedCommissionFollowsRule | app/Jobs/SendDailyCommissionJob.php:24 | when the stored commissions follow the rule, the mailed total is the rule summed over the day's amounts |
| SendDailyCommissionJob.RuleSumOfMatching | app/Jobs/SendDailyCommissionJob.php:24 | summing stored commissions that follow the rule is summing the rule |
| SendDailySalesReportJob.Handle | app/Jobs/SendDailySalesReportJob.php:20-32 | exactly one mail goes out, to the administrator, with the day's total, count and breakdown |
| SendDailySalesReportJob.ReportAddsUp | app/Jobs/SendDailySalesReportJob.php:22-30 | the mailed breakdown adds up to the mailed count and total |
| SendDailySalesReportJob.ReportOneEntryPerSeller | app/Jobs/SendDailySalesReportJob.php:22-30 | the mailed breakdown has one entry per distinct seller who sold that day, and no other |
| SendDailySalesReportJob.EmptyDayReport | app/Jobs/SendDailySalesReportJob.php:20-32 | a day without sales is mailed as 0 sales, 0.00 and an empty breakdown |
| SendDailyEmailsCommand.ReportDate | app/Console/Commands/SendDailyEmailsCommand.php:18 | the `--date` option when given, yesterday otherwise |
| SendDailyEmailsCommand.Admins | app/Console/Commands/SendDailyEmailsCommand.php:32 | the admins are exactly the users with perfil 'Gestor' |
| SendDailyEmailsCommand.AdminsCount | app/Console/Commands/SendDailyEmailsCommand.php:32 | there are as many admins as 'Gestor' users |
| SendDailyEmailsCommand.CommissionJobs | app/Console/Commands/SendDailyEmailsCommand.php:26-29 | one commission job per seller, in register order, all for the date |
| SendDailyEmailsCommand.ReportJobs | app/Console/Commands/SendDailyEmailsCommand.php:35-38 | one report job per admin, to the admin's e-mail, all for the date |
| SendDailyEmailsCommand.Handle | app/Console/Commands/SendDailyEmailsCommand.php:16-42 | the two loops queue the commission jobs and then the report jobs, and the command returns SUCCESS |
| SendDailyEmailsCommand.PlanSize | app/Console/Commands/SendDailyEmailsCommand.php:23-41 | the number of queued jobs is the number of sellers plus the number of 'Gestor' users |
| SendDailyEmailsCommand.PlanSameDate | app/Console/Commands/SendDailyEmailsCommand.php:18-38 | every queued job is for the command's date |
| SendDailyEmailsCommand.OneCommissionJobPerSeller | app/Console/Commands/SendDailyEmailsCommand.php:26-29 | the i-th job is the commission job of the i-th seller |
| SendDailyEmailsCommand.ReportsOnlyToGestor | app/Console/Commands/SendDailyEmailsCommand.php:32-38 | every report job goes to a 'Gestor' user, and every 'Gestor' user gets one |
| StudentsStore.LowerChar | frontend/src/stores/students.ts:21 | a lowered character is never an upper-case letter, and other characters are unchanged |
| StudentsStore.Lower | frontend/src/stores/students.ts:21 | lowering keeps the length and lowers each character |
| StudentsStore.LowerIdempotent | frontend/src/stores/students.ts:21 | lowering twice is lowering once |
| StudentsStore.IncludesOccurrence | frontend/src/stores/students.ts:21-23 | `includes` holds if and only if the part occurs at some position of the text |
| StudentsStore.IncludesEmpty | frontend/src/stores/students.ts:20-23 | the empty string is included in every text |
| StudentsStore.FilteredStudents | frontend/src/stores/students.ts:18-33 | the filtered list is an order-preserving sub-list; a student is in it if and only if the search, the status and the course filter all let it through, and then as often as in the list |
| StudentsStore.DefaultFiltersListAll | frontend/src/stores/students.ts:11-15 | with the default filters every student is listed, in order |
| StudentsStore.SearchIgnoresCase | frontend/src/stores/students.ts:20-23 | the search matches the same students whatever the case of what is typed |
| StudentsStore.SearchFindsName | frontend/src/stores/students.ts:21 | typing any part of a student's name finds that student |
| StudentsStore.CountStatus | frontend/src/stores/students.ts:36-37 | a status count is at most the number of students |
| StudentsStore.ApprovedStudents | frontend/src/stores/students.ts:36 | the approved count is at most `totalStudents` |
| StudentsStore.CancelledStudents | frontend/src/stores/students.ts:37 | the cancelled count is at most `totalStudents` |
| StudentsStore.StatusCountsAddUp | frontend/src/stores/students.ts:35-37 | the pending, approved and cancelled counts add up to `totalStudents` |
| StudentsStore.CountIsFilteredLength | frontend/src/stores/students.ts:36-37 | a status count is the length of the list filtered by that status |
| StudentsStore.BeforeIrreflexive | frontend/src/stores/students.ts:41 | no string sorts before itself |
| StudentsStore.BeforeTotal | frontend/src/stores/students.ts:41 | of two different strings one sorts before the other |
| StudentsStore.BeforeTransitive | frontend/src/stores/students.ts:41 | the sort order is transitive |
| StudentsStore.SortedHasNoDuplicates | frontend/src/stores/students.ts:41 | a strictly sorted list has no duplicates |
| StudentsStore.Courses | frontend/src/stores/students.ts:40 | the mapped list holds exactly the students' courses |
| StudentsStore.Distinct | frontend/src/stores/students.ts:41 | the `Set` keeps every value once and nothing else |
| StudentsStore.InsertSorted | frontend/src/stores/students.ts:41 | inserting a new string into a sorted list keeps it sorted |
| StudentsStore.SortStrings | frontend/src/stores/students.ts:41 | sorting keeps the length and the values |
| StudentsStore.SortStringsSorted | frontend/src/stores/students.ts:41 | sorting distinct strings gives a strictly sorted list |
| StudentsStore.AvailableCourses | frontend/src/stores/students.ts:39-42 | the course list is sorted, has no duplicates, and holds exactly the courses some student takes |
| StudentsStore.IndexOfStudent | frontend/src/stores/students.ts:95 | the position found holds the id and no earlier student holds it; no position means no student holds it |
| StudentsStore.ReplaceFirst | frontend/src/stores/students.ts:95-98 | replacing keeps the length, and a list without the id is left as it was |
| StudentsStore.ReplaceFirstOnlyFirst | frontend/src/stores/students.ts:95-98 | only the first student with the id is replaced; every other position keeps its student |
| StudentsStore.WithoutStudent | frontend/src/stores/students.ts:113 | deleting keeps every other student, each as often as before and in order, and removes every student with the id |
| StudentsStore.WithoutAbsentStudent | frontend/src/stores/students.ts:113 | deleting an id nobody holds changes nothing |
| StudentsStore.ErrorText | frontend/src/stores/students.ts:64 | the error is the server's message or the action's own text |
| StudentsStore.LookupErrorText | frontend/src/stores/students.ts:149 | the lookup error is the fixed text followed by the id in decimal |
| StudentsStore.MergeFilters | frontend/src/stores/students.ts:155 | each filter key given replaces the current one, and the others stay |
| StudentsStore.MergeFiltersLaws | frontend/src/stores/students.ts:155 | an empty patch changes nothing, and two patches in a row act as one in which the later keys win |
| StudentsStore.Store.FindIndex | frontend/src/stores/students.ts:95 | the loop answers the first position holding the id, or -1 |
| StudentsStore.Store.FetchStudents | frontend/src/stores/students.ts:45-69 | the list becomes the server's list and the error is cleared; on failure the list stays and the error is set; loading ends false |
| StudentsStore.Store.Create | frontend/src/stores/students.ts:71-86 | the created student is appended and returned; on failure nothing is added and the error is set |
| StudentsStore.Store.Update | frontend/src/stores/students.ts:88-106 | the first student with the id is replaced by the server's version; on failure the list stays and the error is set |
| StudentsStore.Store.Delete | frontend/src/stores/students.ts:108-120 | every student with the id leaves the list; on failure the list stays and the error is set |
| StudentsStore.Store.UpdateStatus | frontend/src/stores/students.ts:122-136 | like the update, but the loading flag and an earlier error are left alone |
| StudentsStore.Store.FetchById | frontend/src/stores/students.ts:138-152 | a listed student is answered without change; otherwise the server's student is appended, or the error names the id |
| StudentsStore.Store.SetFilters | frontend/src/stores/students.ts:154-156 | the filters become the merge and nothing else changes |
| StudentsStore.Store.ClearFilters | frontend/src/stores/students.ts:158-164 | the filters return to the defaults, so the filtered list is the whole list |
| NotificationsStore.WithDefaults | frontend/src/stores/notifications.ts:15-21 | the caller's fields are kept, the duration is 5000 unless the caller gives the key |
| NotificationsStore.IndexOfId | frontend/src/stores/notifications.ts:35 | the position found holds the id and no earlier notification holds it; no position means none holds it |
| Common.FirstMatchIsIndex | frontend/src/stores/notifications.ts:35 | the lookup by id (`findIndex`) finds the first element holding the id, not a later one |
| NotificationsStore.RemoveFirstCounts | frontend/src/stores/notifications.ts:34-39 | removing takes out exactly one notification with the id when there is one, and nothing otherwise |
| NotificationsStore.RemoveFirstKeepsOthers | frontend/src/stores/notifications.ts:34-39 | removing keeps the rest in order, and every notification with another id stays |
| NotificationsStore.WithoutAtIsSubsequence | frontend/src/stores/notifications.ts:37 | `splice(index, 1)` leaves an order-preserving sub-list |
| NotificationsStore.AddThenRemove | frontend/src/stores/notifications.ts:15-39 | adding a notification and removing it by its new id restores the list, when the id was not in use |
| NotificationsStore.SameMillisecondRemovesEarlier | frontend/src/stores/notifications.ts:16 | two notifications added in the same millisecond share an id, and removal takes out the earlier one only |
| NotificationsStore.Store.AddNotification | frontend/src/stores/notifications.ts:15-32 | exactly one notification is appended at the end, with the clock reading as id and the defaults applied; its removal is scheduled when it has a duration; the id is returned |
| NotificationsStore.Store.FindIndex | frontend/src/stores/notifications.ts:35 | the loop answers the first position holding the id, or -1 |
| NotificationsStore.Store.RemoveNotification | frontend/src/stores/notifications.ts:34-39 | the first notification with the id is removed, if any |
| NotificationsStore.Store.Success | frontend/src/stores/notifications.ts:41-43 | a 'success' notification with the title and message as given and duration 5000 |
| NotificationsStore.Store.Error | frontend/src/stores/notifications.ts:45-47 | an 'error' notification with the title and message as given and duration 8000 |
| NotificationsStore.Store.Warning | frontend/src/stores/notifications.ts:49-51 | a 'warning' notification with the title and message as given and duration 5000 |
| NotificationsStore.Store.Info | frontend/src/stores/notifications.ts:53-55 | an 'info' notification with the title and message as given and duration 5000 |

## Left out

- Floating point. The source computes `round($amount * 0.085, 2)` on PHP floats. The model works on exact cents and rounds halves away from zero, which is what PHP's `round` intends. A float product that lands just below a half-cent is not modelled.
- The admin report template recomputes a commission as `totalAmount * 0.085` with floats, for display only. Mail classes and templates are not part of this model.
- Amounts with more than two decimals are rounded by the `decimal:2` cast before storage; the model's amounts are whole cents from the start.
- The clock: `now()`, `startOfMonth`, `endOfMonth` and `subMonth`. Today, the clock reading and the two month windows are parameters.
- SaleStatistics.Dashboard: the previous-month window is a parameter. Carbon's `now()->subMonth()` overflows on the 29th to 31st of a month and can land in the current month. The model assumes the caller passes the real previous month.
- SaleService.GetAll: requires `page >= 1`. The framework replaces a missing, non-numeric or non-positive page by 1; that normalisation is not modelled. A negative or non-numeric `per_page` is not modelled either.
- SellerService.GetAll: requires `page >= 1`, for the same reason as SaleService.GetAll; a negative or non-numeric `per_page` is not modelled.
- SaleQuery.SortBy: the model's sort is stable, so rows that tie on `sale_date` keep their storage order. SQL leaves the order of tied rows to the database, and `orderBy('sale_date', 'desc')` has no tie-breaking key.
- SaleService.GetAll: its exact page window holds for the model's fixed tie order. In the program, a sale whose date ties with others across a page boundary can show up on two pages or on none.
- SaleService.ListSales: a filter counts as given when it is filled. The model reads a missing or blank parameter as None.
- SellerService.SalesBySeller: a `date_from` or `date_to` that is present but empty is read as absent.
- SellerService.Searched: SQL LIKE wildcards (`%`, `_`) in the search and collation-dependent case folding are not modelled. The search is a plain, case-sensitive prefix test.
- The storage order of `groupBy` is fixed to the order of each seller's first row. Each summary entry carries the seller's id instead of the loaded seller record.
- Deleting a seller: the effect on its sales (foreign key or cascade) is not visible in the source and is not modelled.
- UpdateSaleRequest.Validate: reports only the first failing rule of each field. Laravel can report several messages for one field.
- Malformed input (a non-numeric amount, an unparsable date, a non-existent seller id type) is an explicit `Malformed` input, not a parser.
- SaleController.ResendDate: a requested date of "0" or an empty `?date=` is falsy in PHP and falls back like a missing one. The model's None covers the missing and empty cases only.
- The `$date` of the latest-sale branch is a Carbon value in the source and a string elsewhere. The model uses one date type.
- SendDailyEmailsCommand.ReportDate: `--date=0` is falsy in PHP and falls back to yesterday. The model's None covers the missing and empty cases only.
- The console output lines of the command and the `Log` calls of the sales delete are not modelled.
- Job execution, the queue worker and mail transport. Dispatching or sending appends a record to the queue or the outbox.
- Authentication, authorization policies, HTTP routing, resources and JSON shaping, pagination envelopes, migrations, seeders and factories.
- The Eloquent hooks are modelled as functions on sale values. The ledger methods compose them.
- `created_at` and `updated_at` are not maintained by the model, beyond the creation time given to a new sale.
- StudentsStore.Lower: `toLowerCase` is modelled for the ASCII letters only. Unicode case mapping is left out.
- StudentsStore.Before: JavaScript's `sort` compares UTF-16 code units. The model compares characters, which agrees outside the supplementary planes.
- StudentsStore.Store.FetchStudents: `Number(student.id)` and the field-by-field copy are taken as the identity. Ids are already numbers in the model, and the student record has exactly the copied fields.
- StudentsStore.MergeFilters: a key given with the value `undefined` overwrites the current value in JavaScript. The model's patch has no such value.
- The `loading` flag is observed only after an action finishes. Its value while the request is pending is not modelled.
- A thrown error is modelled as a `None` result of the action. The rejected promise's payload is not.
- NotificationsStore.Store.AddNotification: `setTimeout` is modelled as a recorded timer (id and delay). The later removal is not run. Ids come from the clock and are not guaranteed unique; SameMillisecondRemovesEarlier shows the effect.
- A duration of `NaN` is not modelled.
