# Gem Guardian inventory: a Dafny model of its business logic

Gem Guardian is a React front end for a diamond dealer: inventory, matched
sets of stones, rough-diamond lots, invoices, customers and stones on memo.
Its logic lives inside components and page handlers. Every piece of that
logic modelled here is a pure computation, or a state change over lists held
in memory. Each `setX(v)` is read as "the next state holds `v`".

The model has one module per concern:

- `Grades` (grades.dfy): the colour, clarity and cut scales and their rank tables, and the "similar grade" test.
- `StyleClasses` (style_classes.dfy): the grade-to-class and status-to-class mappings of `src/lib/utils.ts`.
- `Matching` (matching.dfy): the stone-matching engine. It covers the match score of a set and the greedy search that forms sets from the available stones of a pool.
- `Lots` (lots.dfy): the carat ledger of a rough-diamond lot. It covers the remaining weight and discrepancy check, and applying a transaction through the entry form and the detail page. It also covers creating a lot, lot numbers, the mock lots and their summary.
- `LotList` (lot_list.dfy): the lot table's search, status and handler filters and row limit, and the newest-first transaction history.
- `Invoices` (invoices.dfy): the invoice summary arithmetic, the form's line recompute and tax-rate recovery, adding and deleting lines, submission, invoice numbers, the mock invoices, the list filter and the status badge.
- `Billing` (billing.dfy): the billing page's view state machine, saving an invoice, and the status update.
- `Customers` (customers.dfy): adding and updating customers by id, the selected customer's memos, and the customer search and type badge.
- `Memos` (memos.dfy): the memo table. It covers the overdue rule, the customer-name lookup, the status badge and the per-row actions.
- `Finance` (finance.dfy): the account tabs and the sign shown on each amount.
- `Wrappers`, `Seqs` and `Text` hold the shared helpers: `Option`/`Result`, filtering, summing and sorting sequences, and decimal and string operations.

Carats and money are `real`. Dates that the code compares are integers:
- a lot transaction's date is `yyyymmdd`;
- a memo's expected end date is a day number, counted from 1970-01-01;
- "now" is in milliseconds.

Timestamps that are only stored and shown stay strings. The clock, random
ids and the matching tool's stone pool are parameters.

Three behaviours of the code worth knowing:

- The discrepancy check compares exactly, with no tolerance (`src/data/mockLots.ts:168`).
- The carat tolerance is a percentage of the base stone's weight, so the candidate test is not symmetric. `Matching.ToleranceIsNotSymmetric` shows this.
- An Active memo is overdue once the clock passes midnight UTC at the start of its expected end day. `new Date("YYYY-MM-DD")` reads that midnight, so the memo is already flagged during the end day itself. `Memos.FlaggedDuringEndDay` shows this.

## Model

| member | source | states |
|---|---|---|
| Grades.RanksFollowGradeOrder | src/components/StoneMatchingTool.tsx:59-69 | every colour, clarity and cut grade has a rank; the best grade has the top rank (10, 10, 4) and each step down the declared order loses exactly one |
| Grades.RanksAreInjective | src/components/StoneMatchingTool.tsx:59-69 | two grades of one scale have the same rank exactly when they are the same grade |
| Grades.SimilarMeansNeighbours | src/components/StoneMatchingTool.tsx:71-87 | two grades are similar exactly when they are equal or adjacent in the grade order |
| Grades.SimilarityReflexiveSymmetric | src/components/StoneMatchingTool.tsx:71-87 | on every scale, each grade is similar to itself, and similarity does not depend on argument order |
| StyleClasses.ColorClassBands | src/lib/utils.ts:27-42 | D–F are blue, G–J gray, and K and below yellow, as contiguous rank bands; a string that names no colour is yellow |
| StyleClasses.ClarityClassBands | src/lib/utils.ts:44-53 | FL–VVS2 are green, VS1–SI1 blue, and SI2 and below orange, as contiguous rank bands; an unknown string is orange |
| StyleClasses.CutClassBands | src/lib/utils.ts:55-66 | Excellent, Very Good and Good get purple, blue and green; Fair, Poor and any unknown string get orange |
| StyleClasses.StatusClassReturnedIsDefault | src/lib/utils.ts:68-83 | Available, Reserved, Sold and On Memo get four distinct non-gray classes; Returned and every unknown string get the same gray |
| Matching.CaratDiffPercent | src/components/StoneMatchingTool.tsx:173 | the relative carat difference is never negative, and is zero exactly when the two weights are equal |
| Matching.PenaltyZeroIffSame | src/components/StoneMatchingTool.tsx:99-116 | a member's penalty against the base is never negative, and is zero exactly when it equals the base in carat, colour, clarity and cut |
| Matching.ScoreComponentsExample | src/components/StoneMatchingTool.tsx:99-116 | a 1% carat gap costs 2 points, a similar colour 5 and a dissimilar clarity 15, so such a pair scores 78 |
| Matching.MatchScore | src/components/StoneMatchingTool.tsx:89-120 | the score always lies in [0, 100], and is 0 for fewer than two stones |
| Matching.PerfectScoreIffIdentical | src/components/StoneMatchingTool.tsx:92-117 | a set of two or more stones scores exactly 100 iff every member equals the first stone in the four Cs |
| Matching.AddingMemberNeverRaisesScore | src/components/StoneMatchingTool.tsx:96-117 | appending a stone to a set never raises its score |
| Matching.ShapesInOrder | src/components/StoneMatchingTool.tsx:137-150 | the shapes already listed stay in front; every stone's shape is listed; no shape is listed twice |
| Matching.ShapesInOrderAddsStoneShapes | src/components/StoneMatchingTool.tsx:137-145 | a key is added only for a stone whose shape has none yet: every shape added is some stone's shape and was not listed before |
| Matching.ShapesInOrderFirstAppearance | src/components/StoneMatchingTool.tsx:137-150 | the groups are visited in order of first appearance: a shape listed earlier has a stone before every stone of a shape listed later |
| Matching.ShapeGroup | src/components/StoneMatchingTool.tsx:137-159 | a shape group holds exactly the available stones of that shape, each as often as in the list, sorted by carat |
| Matching.Candidates | src/components/StoneMatchingTool.tsx:167-190 | every candidate passes the tolerance and grade-mode test against the base; every other stone of the group that passes is a candidate; the base itself is never taken again |
| Matching.NewSetWellFormed | src/components/StoneMatchingTool.tsx:192-204 | a base with enough matches yields a set that has at least `minPairs` stones and starts with the base; every other member passes the candidate test; the total carats are the members' sum, the average price is their mean, and the score is in [0, 100] |
| Matching.ScanGroup | src/components/StoneMatchingTool.tsx:162-211 | scanning one group with the skip-ahead emits only well-formed sets drawn from the group, named `set-n`, `set-(n+1)`, ... in order |
| Matching.ScanGroupEmptyIff | src/components/StoneMatchingTool.tsx:162-211 | the scan of a group emits no set exactly when no base from the starting one on has at least `minPairs - 1` matches |
| Matching.GroupSets | src/components/StoneMatchingTool.tsx:150-211 | a group smaller than `minPairs` is skipped and a larger one scanned; its sets are well formed over the available stones, of one shape and numbered on; there are none exactly when the group is too small or no base in it has enough matches |
| Matching.SetsMayShareStones | src/components/StoneMatchingTool.tsx:167-209 | candidates come from the whole group, so one stone can belong to two sets; the scan resumes after the emitted set's size |
| Matching.ThreeStoneExample | src/components/StoneMatchingTool.tsx:162-211 | with 1.00, 1.02 and 1.50 ct stones at 5% tolerance, exactly one set forms, and it holds the two small stones |
| Matching.ToleranceIsNotSymmetric | src/components/StoneMatchingTool.tsx:172-174 | 0.95 ct passes against a 1.00 ct base, but 1.00 ct fails against a 0.95 ct base |
| Matching.ScanGroups | src/components/StoneMatchingTool.tsx:150-212 | over all shape groups, every set is well formed over the available stones and all its stones have one shape; the names continue across groups; nothing is found exactly when no listed group yields a set |
| Matching.OnlyListedShapesYield | src/components/StoneMatchingTool.tsx:137-150 | only shapes of available stones have groups that can yield a set: every listed group yields none exactly when every shape's group yields none |
| Matching.ScanPool | src/components/StoneMatchingTool.tsx:137-212 | the sets found before sorting are named `set-1`, `set-2`, ... in the order found, are well formed over the available stones and of one shape; there are none exactly when no shape group yields a set |
| Matching.SetsNeedLargeEnoughShapeGroup | src/components/StoneMatchingTool.tsx:153-156 | a returned set has at least `minPairs` stones and no more than its shape group holds, so a group smaller than `minPairs` yields nothing |
| Matching.FindMatchingSets | src/components/StoneMatchingTool.tsx:122-215 | the result holds exactly the sets the scan found, sorted by score, best first; every set is well formed over the pool, made of available stones of the chosen shape, and of one shape; the names are `set-1` to `set-k`, each used once; the result is empty exactly when no shape group yields a set |
| Matching.FirstIsBest | src/components/StoneMatchingTool.tsx:215-222 | in a list sorted by score, best first, no set scores above the first |
| Matching.Publish | src/components/StoneMatchingTool.tsx:219-225 | the sets are published and the search ends; the best set is selected when there is one; "no matches" is raised exactly when there is none |
| Matching.RunSearch | src/components/StoneMatchingTool.tsx:122-226 | a completed search shows valid sets, best first, with a selection iff the result is non-empty and the notice iff it is empty, that is, iff no shape group of available stones yields a set |
| Lots.Delta | src/components/LotDetail.tsx:58-62 | a transfer does not change the weight on hand; a sale never raises it and a return never lowers it |
| Lots.RemainingIsReplay | src/data/mockLots.ts:153-163 | total − sold + returned equals replaying the ledger one transaction at a time; transfers count for nothing |
| Lots.SoldAppend | src/data/mockLots.ts:154-156 | appending a transaction adds its carats to the sold weight exactly when it is a SALE |
| Lots.ReturnedAppend | src/data/mockLots.ts:158-160 | appending a transaction adds its carats to the returned weight exactly when it is a RETURN |
| Lots.LedgerSumsByEntry | src/components/LotDetail.tsx:30-36 | the sold and returned weights are the sums of each transaction's share, entry by entry |
| Lots.EmptyLedgerDiscrepancy | src/data/mockLots.ts:153-169 | a lot without transactions is flagged exactly when its recorded remaining weight differs from its total |
| Lots.ApplyTransaction | src/components/LotDetail.tsx:48-66 | the transaction goes at the end of the ledger; a SALE lowers the recorded weight by its carats, a RETURN raises it, a TRANSFER leaves it; the time is stamped; nothing else changes |
| Lots.ApplyKeepsDrift | src/components/LotDetail.tsx:52-62 | the gap between the ledger's weight and the recorded weight is the same after applying any transaction |
| Lots.SubmitTransaction | src/components/AddLotTransactionForm.tsx:35-83 | an invalid form, or a SALE above the remaining weight, is refused with its error; otherwise the transaction is built for this lot from the form's fields |
| Lots.AddTransaction | src/components/LotDetail.tsx:48-65 | form and handler together: the lot changes exactly when the form accepts, and then by applying the built transaction |
| Lots.AcceptedTransactionKeepsReconciled | src/components/LotDetail.tsx:48-66 | a lot that reconciles still reconciles after any transaction the form accepts and the handler applies |
| Lots.AcceptedTransactionKeepsRemainingNonNegative | src/components/AddLotTransactionForm.tsx:62-68 | an accepted transaction never takes a non-negative remaining weight below zero |
| Lots.SaleOfEverythingRemainingAccepted | src/components/AddLotTransactionForm.tsx:62 | the sale limit is strict: a sale of exactly the remaining weight is accepted and empties the lot; returns and transfers are not limited |
| Lots.StatusOf | src/components/LotDetail.tsx:196-202 | Completed iff nothing remains; New iff something remains and it is the full total; Active otherwise (the badge of the lot table, src/components/LotList.tsx:186-192, applies the same rule) |
| Lots.DiscrepancyAmount | src/components/LotDetail.tsx:101-103 | the amount shown is never negative, and is non-zero exactly when the lot is flagged |
| Lots.FindLot | src/components/LotDetail.tsx:22 | `None` iff no lot has the id; otherwise the first lot with that id |
| Lots.SubmitLot | src/components/AddLotForm.tsx:28-69 | a lot is created iff the form is valid; it copies the form's fields, has its whole weight remaining and has no transactions |
| Lots.NewLotIsNewAndReconciled | src/components/AddLotForm.tsx:54-66 | a freshly created lot reconciles, has a discrepancy of zero, and is New |
| Lots.LotIdRoundTrip | src/data/mockLots.ts:144-150 | a lot number reads back as the year, month and count it was built from; the month field has exactly two digits and the sequence at least three |
| Lots.GenerateLotIdExample | src/data/mockLots.ts:144-150 | with four lots on file, May 2025 gives `LOT-2025-05-005` |
| Lots.Lot2Sums | src/data/mockLots.ts:41-62 | lot "2" has sold 75 ct and returned none; its 25 ct transfer counts as neither |
| Lots.Lot1Reconciles | src/data/mockLots.ts:80-92 | lot "1" reconciles: 500 − 300 + 50 = 250 ct, as recorded |
| Lots.Lot2IsFlagged | src/data/mockLots.ts:93-105 | lot "2" is flagged: the ledger implies 225 ct, 200 ct are recorded, and the discrepancy shown is 25 ct |
| Lots.Lot3Reconciles | src/data/mockLots.ts:106-118 | lot "3" reconciles: 250 − 150 = 100 ct, as recorded |
| Lots.OnlyLotTwoIsFlagged | src/data/mockLots.ts:79-132 | of the four mock lots only lot "2" is flagged |
| Lots.ReconciledSummary | src/data/mockLots.ts:134-141 | when no lot is flagged, the summary's remaining weight is its total less sales plus returns |
| Lots.MockSummary | src/data/mockLots.ts:134-141 | the mock summary is 4 lots, 1650 ct, 525 sold, 50 returned, 1150 remaining and 947500 in value; the 25 ct gap is lot "2"'s |
| LotList.Limit | src/components/LotList.tsx:61 | the rows kept are a prefix of the list; an absent or zero limit keeps all; a positive one keeps at most that many; a negative one drops that many from the end |
| LotList.FilterLotsSound | src/components/LotList.tsx:37-61 | every row shown passes the search, status and handler filters; the rows are in list order; a positive limit bounds their number |
| LotList.FilterLotsComplete | src/components/LotList.tsx:37-60 | without a limit, every lot that passes the filters is shown |
| LotList.EmptyQueryKeepsEverything | src/components/LotList.tsx:40-57 | no search term, status ALL, no handler and no limit show every lot, in order |
| LotList.ActiveCompletedPartition | src/components/LotList.tsx:47-52 | for the same search and handler, ACTIVE and COMPLETED split the lots that ALL shows: together they hold exactly those lots, and none is in both |
| LotList.History | src/components/LotTransactionHistory.tsx:20-30 | the empty message shows iff there are no transactions; otherwise the rows are a permutation of the transactions, newest first |
| LotList.HistoryListsEveryTransaction | src/components/LotTransactionHistory.tsx:28-30 | a transaction is in the history exactly when it is in the lot's ledger |
| Invoices.CalculateSummary | src/data/mockInvoices.ts:146-167 | the subtotal is the sum of the lines; tax is the rate times the discounted subtotal; VAT is 0; the other charges pass through; the net amount satisfies its identity |
| Invoices.DefaultSummaryAddsEightPercent | src/data/mockInvoices.ts:146-153 | with the defaults, the net amount is the subtotal plus 8% |
| Invoices.SummaryOfAppendedLine | src/data/mockInvoices.ts:154-165 | a new line adds its amount to the subtotal and its taxed amount to the net |
| Invoices.Priced | src/components/InvoiceForm.tsx:106-109 | a line's amount becomes quantity times unit price, with an empty input counting as 0, and nothing else about the line changes |
| Invoices.Recompute | src/components/InvoiceForm.tsx:103-130 | after the effect every line is priced and keeps its other fields; the summary's subtotal is the new lines' sum, and its net amount satisfies the identity |
| Invoices.RecomputeIdempotent | src/components/InvoiceForm.tsx:103-130 | running the effect again on its own output changes nothing |
| Invoices.RecoverTaxRate | src/components/InvoiceForm.tsx:52-53 | a new invoice, or one with zero tax or zero subtotal, starts at 8%; the rate is undefined exactly when tax and subtotal are non-zero and the discount equals the subtotal |
| Invoices.TaxRateRoundTrip | src/components/InvoiceForm.tsx:52-53 | for a consistent taxed invoice whose discount is not its subtotal, the recovered rate gives back the stored tax and net amount |
| Invoices.UntaxedInvoiceIsRetaxed | src/components/InvoiceForm.tsx:52-53 | an invoice stored with zero tax is taxed at 8% once it is edited, so its recomputed tax is no longer zero whenever its lines' discounted sum is not zero |
| Invoices.BlankItem | src/components/InvoiceForm.tsx:144-151 | an added line has quantity 1, unit `C`, unit price 0, amount 0 and no description |
| Invoices.AddItem | src/components/InvoiceForm.tsx:143-152 | adding keeps the existing lines and appends one line numbered `item-(n+1)` |
| Invoices.AddItemKeepsTotals | src/components/InvoiceForm.tsx:143-152 | an added blank line changes no total and leaves every line priced |
| Invoices.AddAfterRemoveCanRepeatId | src/components/InvoiceForm.tsx:145 | ids come from the count alone, so deleting a line and then adding one can give two lines the same id |
| Invoices.RemoveItem | src/components/InvoiceForm.tsx:581 | delete removes exactly the chosen line when more than one is left, and otherwise does nothing; at least one line always remains |
| Invoices.EditsNeverEmptyTheLines | src/components/InvoiceForm.tsx:581 | from at least one line, deleting leaves at least one and adding leaves at least two |
| Invoices.SubmitInvoice | src/components/InvoiceForm.tsx:154-161 | an edit keeps the existing id; a new invoice gets `invoice-` plus the clock's milliseconds; `updatedAt` becomes the submission time; nothing else changes |
| Invoices.InvoiceNumberRoundTrip | src/data/mockInvoices.ts:142 | an invoice number reads back as the year and count it was built from; its sequence field has at least three digits |
| Invoices.GeneratedNumberCountsInvoices | src/data/mockInvoices.ts:135-143 | the next number carries the year and counts the invoices whose number mentions that year, which never exceeds the list's length |
| Invoices.GenerateInvoiceNumberExample | src/data/mockInvoices.ts:135-143 | after the three mock invoices of 2023, the next number in 2023 is `INV-2023-004` |
| Invoices.MockItemsSum | src/data/mockInvoices.ts:4-38 | the three mock lines sum to 2835.00 |
| Invoices.MockInvoicesConsistent | src/data/mockInvoices.ts:41-132 | every mock invoice's subtotal is the sum of its lines, and its net amount satisfies the identity |
| Invoices.EditingRepricesMockLines | src/data/mockInvoices.ts:4-38 | the mock lines are not priced at quantity times unit price, so editing a mock invoice reprices them to a 6300.00 subtotal |
| Invoices.FilterInvoices | src/components/InvoiceList.tsx:50-59 | an invoice is listed iff it matches the search (number, customer or purchase order, ignoring case) and the status filter; with a status other than ALL every row has that status |
| Invoices.FilterInvoicesKeepsOrder | src/components/InvoiceList.tsx:50 | the listed invoices keep their order in the list |
| Invoices.EmptySearchListsAll | src/components/InvoiceList.tsx:50-58 | an empty search with status ALL lists every invoice |
| Invoices.StatusBadgeClassTotal | src/components/InvoiceList.tsx:61-76 | every status other than DRAFT gets its own non-gray class; DRAFT and any unknown string get gray |
| Billing.Initial | src/pages/Billing.tsx:60-62 | the page opens on the list of mock invoices, with nothing selected |
| Billing.GoToList | src/pages/Billing.tsx:67-70 | returns to the list and clears the selection, leaving the invoices alone |
| Billing.SelectInvoice | src/pages/Billing.tsx:72-75 | opens the detail view of the chosen invoice |
| Billing.CreateInvoice | src/pages/Billing.tsx:77-79 | opens the create view; the selection and invoices are unchanged |
| Billing.EditInvoice | src/pages/Billing.tsx:81-84 | opens the edit view of the chosen invoice |
| Billing.ReplaceById | src/pages/Billing.tsx:89 | the list keeps its length and its ids in order; each invoice with the saved id becomes the saved invoice and every other stays; when the id was present the saved invoice is in the list |
| Billing.ReplaceByIdIdempotent | src/pages/Billing.tsx:89 | replacing by id a second time with the same invoice changes nothing |
| Billing.SaveInvoice | src/pages/Billing.tsx:86-103 | in the edit view the saved invoice replaces the one with its id, otherwise it is appended; either way the page returns to the list with nothing selected |
| Billing.SaveEditReplacesInPlace | src/pages/Billing.tsx:87-93 | saving an edit keeps the length and ids; it stores the invoice wherever its id was and touches no other invoice; saving it again changes nothing |
| Billing.SaveNewAppends | src/pages/Billing.tsx:94-102 | saving outside the edit view keeps every invoice and adds the saved one at the end |
| Billing.UpdateStatusAsWritten | src/pages/Billing.tsx:105-128 | as written: with nothing selected nothing happens; for PAID the stored list is the pre-call list with only `paidAt` set |
| Billing.PaidUpdateLosesStatus | src/pages/Billing.tsx:107-120 | as written, marking an invoice PAID leaves its status and `updatedAt` unchanged and only sets `paidAt` |
| Billing.PaidUpdateCounterexample | src/pages/Billing.tsx:114-119 | as written, the SENT mock invoice stays SENT when marked PAID; the corrected update shows it PAID |
| Billing.AsWrittenAgreesBesidesPaid | src/pages/Billing.tsx:105-111 | for every status but PAID the handler as written equals the corrected update |
| Billing.UpdateStatus | src/pages/Billing.tsx:105-128 | corrected update: with nothing selected nothing happens; the view and selection never change |
| Billing.UpdateStatusSetsEveryField | src/pages/Billing.tsx:105-120 | corrected update: the selected invoice gets the new status and time, and a payment time exactly for PAID; nothing else changes |
| Customers.AddCustomer | src/pages/Customers.tsx:138-144 | the new customer goes at the end with id `String(length + 1)` and the submitted fields; earlier customers are untouched |
| Customers.AddKeepsNumberedIds | src/pages/Customers.tsx:138-144 | if the ids are "1" to "n" in order, adding keeps them so, and the new id is not already in use |
| Customers.UpdateCustomer | src/pages/Customers.tsx:152-159 | with nothing selected nothing changes; otherwise every id stays, and the customers with the selected id take the submitted fields while the others keep theirs |
| Customers.UpdateKeepsNumberedIds | src/pages/Customers.tsx:152-159 | with ids "1" to "n", an update keeps them and changes exactly the one selected customer |
| Customers.MockCustomersAreNumbered | src/pages/Customers.tsx:15-60 | the mock customers have ids "1" to "4" in order |
| Customers.FindCustomer | src/pages/Customers.tsx:167-169 | `None` iff no customer has the id; otherwise the first customer with that id |
| Customers.CustomerMemosAreTheSelectedCustomers | src/pages/Customers.tsx:167-173 | the memos shown are exactly those of the selected existing customer, in order, and none when no such customer is selected |
| Customers.FilterCustomers | src/components/CustomerManagement.tsx:31-35 | a customer is listed iff the name or e-mail contains the term ignoring case, or the phone contains it as typed |
| Customers.FilterCustomersOrderAndEmpty | src/components/CustomerManagement.tsx:31-35 | the result keeps the list's order, and an empty term lists everyone |
| Customers.NameAndEmailIgnoreCase | src/components/CustomerManagement.tsx:32-33 | the name and e-mail match does not depend on the case of the term |
| Customers.PhoneIsCaseSensitive | src/components/CustomerManagement.tsx:34 | the phone match does depend on case: "a" finds "ext a" but "A" does not |
| Customers.CustomerTypeClassTotal | src/components/CustomerManagement.tsx:37-48 | Retail, Wholesale and Dealer get three distinct non-gray classes, and any other string gets gray |
| Memos.OverdueRule | src/components/DiamondMemoManagement.tsx:57-63 | a memo that is not Active is never overdue; an Active one is overdue exactly once the clock is past its end date, and stays overdue |
| Memos.FlaggedDuringEndDay | src/components/DiamondMemoManagement.tsx:60-62 | the end date reads as that day's midnight, so an Active memo is flagged during its end day |
| Memos.MockMemosOverdue | src/pages/Customers.tsx:62-100 | on 2025-05-01 only the Active mock memo is flagged; the one whose status reads Overdue is not |
| Memos.CustomerName | src/components/DiamondMemoManagement.tsx:52-55 | "Unknown" when no customer has the id; otherwise the name of a customer with that id |
| Memos.CustomerNameIsFirstMatch | src/components/DiamondMemoManagement.tsx:52-55 | when several customers share the id, the name shown is the first one's |
| Memos.MemoStatusClassTotal | src/components/DiamondMemoManagement.tsx:37-50 | the four memo statuses get four distinct non-gray classes, and any other string gets gray |
| Memos.RowActions | src/components/DiamondMemoManagement.tsx:100-135 | Return and Sold are offered exactly for Active memos; Edit and Delete always |
| Memos.MemoTable | src/components/DiamondMemoManagement.tsx:66-138 | "No memos available." iff there are no memos; otherwise one row per memo, in order, with its customer's name, the overdue icon iff it is overdue, and Sold iff it is Active |
| Memos.OverdueRowsOfferActions | src/components/DiamondMemoManagement.tsx:89-119 | a row that shows the overdue icon always offers Return and Sold |
| Finance.FilterByAccount | src/components/FinanceOverview.tsx:25-27 | the `all` tab shows the list unchanged; an account tab shows exactly that account's transactions |
| Finance.CashAndBankPartition | src/components/FinanceOverview.tsx:25-27 | the cash and bank tabs split the list between them, each in its original order |
| Finance.AmountSign | src/components/FinanceOverview.tsx:118-124 | `+` exactly for deposits, `-` exactly for withdrawals |
| Finance.SignedAmount | src/components/FinanceOverview.tsx:118-124 | the signed amount is the amount for a `+` and its negation for a `-`, so it is non-negative exactly when sign and amount agree |

## Left out

- Rendering: JSX, the UI kit, charts, routing, printing, toasts, `alert` and `console.log`.
- The files that only render, or hold no logic of this kind. These are the analytics, dashboard, sidebar and navigation components, the diamond list, detail, search and history views, and the certification panel. `InvoiceDetail`'s colour mapping duplicates `getStatusBadgeClass`, so it is also out.
- Login and the add-diamond form: timers, local storage and navigation.
- react-hook-form and zod: each schema is a predicate (`Lots.TxFormValid`, `Lots.LotFormValid`), and a form's state is the record it submits.
- Clock and randomness: `new Date()`, `Date.now()` and `Math.random()` ids are parameters of the functions that use them.
- Intl formatting of money and dates, and `Math.round` for the percentage remaining.
- IEEE-754 rounding: carats and money are exact reals.
  - The exact `!==` of the discrepancy check could also flag rounding noise in doubles.
  - The mock invoices' tax figures are rounded to cents, unlike the output of `calculateInvoiceSummary`.
  - A zero divisor in the tax-rate recovery gives a non-finite rate in the code; in the model it is `None`.
- Matching.CaratDiffPercent: a stone of zero carats would divide by zero in the code, so every stone in the pool must weigh more than zero.
- Text.Lower: lower-cases ASCII letters only, where `toLowerCase` covers all of Unicode.
- The stone pool comes from `@/data/mockDiamonds`, which is not part of this model; it is a parameter.
- Matching.FindMatchingSets: states that the result is a reordering of the sets `Matching.ScanPool` finds, and when it is empty; which sets the scan finds is stated through the contracts of `Matching.ScanGroup` and `Matching.GroupSets`, not as a closed-form list, and `Matching.ThreeStoneExample` and `Matching.SetsMayShareStones` pin it down on examples. Nor does it state that sets of equal score keep the order in which they were found, as the stable sort of line 215 does (so that among equal best scores the first set found is selected), although `Seqs.SortBy` is a stable insertion sort.
- Matching.ScanGroup: states that the emitted sets are well formed and numbered, and (through `Matching.ScanGroupEmptyIff`) that the scan is empty exactly when no base has enough matches, not that every base with enough matches emits one, since the skip after a set passes over bases; `Matching.ThreeStoneExample` shows the scan on an example.
- LotList.History: states a permutation in newest-first order, but not that transactions of equal date keep their input order, as the stable `Array.prototype.sort` does.
- The history sorts a copy, so the lot's own list is left as it was; values are immutable here, so there is nothing to state.
- Display-only fields: invoice pages, terms, dates, addresses and certificate fields; `statusDialogOpen`; and the cash and bank balances.
- Memo handlers that only raise a toast: marking returned or sold.
- Selecting a customer, or going back to all customers, only sets or clears the selection, which the model takes as the `selected` parameter of `Customers.UpdateCustomer` and `Customers.CustomerMemos`; the toasts are left out.

## Findings

| source | as written | input that shows it | evidently intended | confidence | as-written member | corrected member |
|---|---|---|---|---|---|---|
| src/pages/Billing.tsx:105-128 | for PAID, the second `setInvoices` maps the list as it was before the handler ran, and that write replaces the first, so the new status and `updatedAt` are lost | select the SENT invoice `inv-2` and mark it PAID: it stays SENT, with `paidAt` set | one update: status PAID, new `updatedAt` and `paidAt`, all on the selected invoice | not executed | Billing.UpdateStatusAsWritten | Billing.UpdateStatus |
