# SACCO back office: shares, dividends, loans, contributions and settings

This project models the business core of a savings and credit co-operative
(SACCO) back-office web service. Each controller wraps SQL statements around
a few tables, and the rules of the co-operative live in those statements'
`WHERE` and `SET` clauses and in the short loops around them. The model
treats each table as a sequence of rows kept in a field of a class, one
class per controller:

- `SharesController.ShareLedger` is the Shares table.
- `DividendsController.DividendBook` holds the DividendDeclarations and DividendPayments tables.
- `LoansController.LoanBook` holds the Loans table and the LoanInstallments schedule.
- `ContributionsController.ContributionBook` is the Contributions table.

An identity column becomes a `nextId` field. Every endpoint becomes a method
that updates those fields and returns the reply as a `Reply` value: `Ok`,
`NotFound`, `BadRequest`, `Conflict` or `ServerError`. The method's
contract ties the new state to pure functions of the old state (the
`UPDATE ... WHERE` of `Tables.UpdateWhere`, the `DELETE` of
`Tables.DeleteWhere`, the row a statement writes). Lemmas beside each class
prove what the co-operative relies on:

- A share transfer moves exactly the requested units, oldest lots first, and splits at most one lot.
- A dividend approval generates one payment per eligible lot, and those payments add up to the declared total.
- Disbursement needs an Approved row, so a second request right after one is NotFound. Approval reopens any loan, a disbursed one included, so the same loan can be disbursed again.
- The status a reader is shown for a contribution.

The ids of every table stay distinct and below their identity counter.

The record types live in their own modules:

- `ShareModel`: the share lot and its request bodies.
- `DividendModel`: dividends, declarations, request bodies, the declaration number and the projection.
- `ContributionModel`: the contribution record, its receipt number and its status mapping.
- `Settings`: the co-operative's settings record, with its validation attributes, `Equals` and `Clone`.

Validation attributes are plain predicates. The framework's automatic
model validation is the first check of every endpoint that takes a body,
answered with `BadRequest`.

Shared helpers:

- `Text`: .NET's `D<n>` integer format and its inverse.
- `Calendar`: the DATETIME range (years 1753 to 9999), `DATEADD(MONTH, ...)` and the `MMddHHmm` and `yyyyMMddHHmmss` stamps.
- `Tables`: generic `UPDATE`/`DELETE` over a sequence of rows.
- `Wrappers`: `Option` and `Reply`.

Some inputs are parameters:

- The current time (`now`), and its culture-formatted text where a message embeds it (`nowText`).
- The Members table (a set or map of ids).
- The growth factor that `Math.Pow` computes for a loan.
- A `faultAt` position at which the database raises an error inside a transaction.

A date the client sends is bound to a DATETIME parameter. A value outside
that type's range (years 1753 to 9999) makes the statement fail, and the
endpoint answers with its `ServerError` reply and changes nothing. Every
method that binds a client's date states this case, at the point where the
code runs the statement.

Where the behaviour of the code and its intent part ways, the code is
followed:

- `AddLoan` falls back to "Pending" only for an explicit JSON `null` status. A body that leaves the status out, and passes the checks, binds the declared default `""`, and the row `AddLoan` appends stores that (`LoansController.OmittedStatusStoredBlank`). This rests on the implicit `[Required]` not being modelled (see "## Left out").
- The settings ranges written with integer bounds round a decimal to the nearest integer, halves to even, before comparing. A share price of 9.5 therefore passes the range 10–10000 (`Settings.HalfUnitOutsideAccepted`).
- `GetDeclarationByYear` reads "2024-2025" as "2024/2025". `CreateDeclaration` stores the year exactly as given, and its duplicate check compares the exact text.
- When an approval finds no eligible lot, `SUM` gives NULL and so does `TotalAmount`. The model keeps `TotalAmount` as `Option<real>` and leaves it `None` (`DividendsController.ApprovalTotalsMatch`).

The two defects under "## Findings" are the exception: there the model
keeps the code as written in a separate member and the rest of the model
uses the intended behaviour.

- `DividendsController.DividendBook.UpdateDeclaration` stores a NULL payment date as NULL, as intended. `DividendsController.UpdateDeclarationAsWritten` is the code as written, which fails with a server error.
- `ContributionsController.GetContributionById` shows a contribution's status as the listing does, as intended. `ContributionsController.GetContributionByIdAsWritten` is the code as written for the status (its NULL text columns are not, see "## Left out"), and `ContributionsController.SingleFetchShowsConfirmed` exhibits the difference.

## Model

| member | source | states |
|---|---|---|
| ShareModel.NewShare | Models/Shares.cs:9-46 | a new lot starts Active and Ordinary with no remark, and carries exactly the id, member, units, unit price, purchase date and creation date it is given |
| ShareModel.NewShareValid | Models/Shares.cs:20-44 | a lot with its default status and type passes validation exactly when Units >= 1 and UnitPrice >= 0.01 |
| ShareModel.DefaultTransferDtoValid | Models/Shares.cs:96-111 | a transfer body naming only the members and units is valid exactly when Units >= 1, and its type is Ordinary |
| ShareModel.PurchaseAndUpdateShareBounds | Models/Shares.cs:73-133 | purchase and update bodies impose the same bounds on Units and UnitPrice |
| ShareModel.UpdateNeedsStatus | Models/Shares.cs:127-128 | an update body whose Status keeps its empty default is refused |
| ShareModel.ShareTypesDistinct | Models/Shares.cs:136-145 | ShareTypes.All is the five listed types, distinct, starting with the default Ordinary |
| Fifo.ActiveLotsOf | Controllers/SharesController.cs:470-473 | the rows read are exactly the member's Active lots, and no more rows than the table holds |
| Fifo.SharesForTransfer | Controllers/SharesController.cs:467-499 | the loop's plan equals the FIFO plan over the member's Active lots in purchase-date order |
| Fifo.ActiveBalanceIsSum | Controllers/SharesController.cs:459-465 | the member's balance is the sum of units over their Active lots |
| Fifo.ActiveBalanceZero | Controllers/SharesController.cs:459-465 | a member with no Active lot has balance 0 (the NULL sum), and a positive balance means an Active lot exists |
| Fifo.SortByDatePermutes | Controllers/SharesController.cs:470-473 | ORDER BY PurchaseDate returns a permutation of the rows |
| Fifo.SortByDateSorted | Controllers/SharesController.cs:470-473 | ORDER BY PurchaseDate returns the rows oldest first |
| Fifo.FifoQueueCorrect | Controllers/SharesController.cs:470-473 | the rows read are the member's Active lots in date order, and their units sum to the balance |
| Fifo.FifoQueueWellFormed | Controllers/SharesController.cs:470-473 | the rows read keep distinct ids and positive units |
| Fifo.FifoPlanShape | Controllers/SharesController.cs:478-496 | each entry takes between 1 and all units of its lot, with that lot's id and price, and every entry but the last takes its lot whole |
| Fifo.FifoPlanSum | Controllers/SharesController.cs:478-496 | the plan takes min(n, balance) units in all, so exactly n when the balance suffices |
| Fifo.FifoPlanStopsAtZero | Controllers/SharesController.cs:478-496 | before each entry fewer than n units have been planned: the loop stops once the remainder is 0 |
| SharesController.ConsumeLotEffect | Controllers/SharesController.cs:324-336 | a lot taken whole becomes Transferred with its units kept; a lot taken in part stays Active with its units lowered by the take, at least 1 left |
| SharesController.ApplyPlanKeepsTable | Controllers/SharesController.cs:319-359 | applying a fitting plan keeps ids distinct and below the counter, and advances the counter by one per entry |
| SharesController.ApplyPlanBalance | Controllers/SharesController.cs:319-359 | applying a fitting plan lowers the sender's Active balance by the plan's total and raises the recipient's by the same |
| SharesController.ApplyPlanAppends | Controllers/SharesController.cs:339-357 | one new Active lot per plan entry is appended, for the recipient, with the take as its units, the source price and the request's type |
| SharesController.ApplyPlanOldRows | Controllers/SharesController.cs:319-336 | every old row stays in place, rewritten by its plan entry or left untouched when the plan does not name it |
| SharesController.TransferPlanFits | Controllers/SharesController.cs:313 | the FIFO plan read from a well-formed table names each lot once, all of them the sender's Active lots |
| SharesController.TransferKeepsTable | Controllers/SharesController.cs:313-361 | a transfer keeps the table well formed |
| SharesController.TransferConservesUnits | Controllers/SharesController.cs:295-361 | when the sender holds at least n units, the sender loses exactly n Active units and the recipient gains n; every other member is unchanged |
| SharesController.TransferRecipientLots | Controllers/SharesController.cs:339-357 | the recipient gets exactly one new Active lot per lot the plan takes from, with that take, that lot's price and the request's type, and the takes add up to n |
| SharesController.ShareLedger.constructor | Controllers/SharesController.cs:232-279 | an empty Shares table with the identity counter at 1 |
| SharesController.ShareLedger.AddShare | Controllers/SharesController.cs:232-279 | an invalid body or an unknown member is BadRequest and changes nothing; then a purchase date outside the DATETIME range is a server error that changes nothing; otherwise one lot with the body's values, Active by default, is appended with the next id |
| SharesController.ShareLedger.UpdateShare | Controllers/SharesController.cs:376-419 | an invalid body is BadRequest; a purchase date outside the DATETIME range is a server error even for a missing id; a missing id is NotFound; each changes nothing; otherwise every row with the id takes the body's values, an empty remark stored as NULL |
| SharesController.ShareLedger.CancelShare | Controllers/SharesController.cs:421-450 | only an Active lot with the id becomes Cancelled with the remark; any other lot or a missing id is NotFound and nothing changes |
| SharesController.ShareLedger.TransferShares | Controllers/SharesController.cs:281-374 | the checks run in the code's order: validation, then balance, then both members; a passing transfer applies the FIFO plan, and a fault rolls every change back |
| DividendModel.NewDividend | Models/Dividend.cs:7-21 | a new payment row is Pending, carries the given ids and figures and has no payment details |
| DividendModel.NewDeclaration | Models/Dividend.cs:66-79 | a new declaration is Pending, carries the given year, rate and total, and is neither approved nor processed |
| DividendModel.DeclarationRequestBounds | Models/Dividend.cs:25-45 | a request is valid exactly when its year is present, not blank and at most 10 characters and its rate lies in [0.0001, 1] |
| DividendModel.DefaultPaymentsRequest | Models/Dividend.cs:141-146 | a new batch request has no ids, no methods and no batch reference |
| DividendModel.PaymentDtoAliases | Models/Dividend.cs:104-105 | Id is always DividendId and DeclarationYear always FinancialYear |
| DividendModel.Truncate | Controllers/DividendsController.cs:282-285 | the result is the first min(length, n) characters of the input |
| DividendModel.DeclarationNumber | Controllers/DividendsController.cs:276-285 | the declaration number is at most 20 characters long |
| DividendModel.DeclarationNumberShape | Controllers/DividendsController.cs:277-285 | the number starts with "DIV-" and the year without '/', and it is cut only when the year part exceeds seven characters |
| DividendModel.DeclarationNumberCutsMinute | Controllers/DividendsController.cs:277-285 | an eight-character year part such as 20242025 loses the last minute digit to the cut |
| DividendModel.DefaultProjectionCalculator | Models/Dividend.cs:119-124 | a new calculator has PayoutRatio 60 |
| DividendModel.CalculateProjection | Controllers/DividendsController.cs:1025-1057 | zero shares gives a server error; otherwise the payout is the ratio's percentage of the profit, divided evenly over the shares |
| DividendModel.DefaultRatioProjection | Controllers/DividendsController.cs:1036-1037 | with the default ratio the payout is 60% of the profit |
| DividendsController.FindDeclaration | Controllers/DividendsController.cs:417-436 | the first declaration with the id, found exactly when one exists |
| DividendsController.FindByYear | Controllers/DividendsController.cs:212-233 | the first declaration of exactly that year, found exactly when one exists |
| DividendsController.EligibleLots | Controllers/DividendsController.cs:446-453 | the lots read are exactly the Active lots bought on or before the record date and held by Active members |
| DividendsController.PaymentsFor | Controllers/DividendsController.cs:464-480 | one Pending payment per eligible lot, worth Units x Rate, numbered from the counter on |
| DividendsController.PaymentsSumToTotal | Controllers/DividendsController.cs:446-480 | the generated payments add up to Rate x the eligible units |
| DividendsController.ApprovalTotalsMatch | Controllers/DividendsController.cs:446-480 | after approval TotalAmount equals the sum of the generated payments, or is NULL with no payments when no lot is eligible |
| DividendsController.PaymentsPerLot | Controllers/DividendsController.cs:464-480 | a member with two eligible lots receives two payments, one per lot |
| DividendsController.UpdateWithoutPaymentDateFails | Controllers/DividendsController.cs:365-383 | as written, updating a Pending declaration without a payment date fails with a server error, while the intended update succeeds |
| DividendsController.UpdateStoresRequest | Controllers/DividendsController.cs:342-397 | as intended, a matching Pending declaration is updated to the request's values, its NULL payment date included, and other rows are untouched; a date outside the DATETIME range is a server error that changes nothing |
| DividendsController.UpdateAgreesWhenDated | Controllers/DividendsController.cs:365-383 | with a payment date given, the code as written and the intended update agree on every input |
| DividendsController.BatchClosedForm | Controllers/DividendsController.cs:809-837 | every listed payment is Paid with reference batch-id and its method or Bank Transfer, whatever its prior status; unknown ids and unlisted rows are untouched |
| DividendsController.GetDeclarationByYear | Controllers/DividendsController.cs:193-247 | a blank year is BadRequest; otherwise the year with '-' read as '/' is looked up: NotFound when no declaration has it, else a declaration of that year with the number of its payments and the sum of exactly its Paid payments, 0 when it has none |
| DividendsController.PaidAmountSumsPaidRows | Controllers/DividendsController.cs:226 | the paid amount is the sum over exactly the declaration's Paid payments, and 0 when it has none |
| DividendsController.LookupNormalisesDashes | Controllers/DividendsController.cs:204-207 | "2024-2025" and "2024/2025" give the same answer, and a stored year containing '-' is never returned |
| DividendsController.DeleteKeepsOk | Controllers/DividendsController.cs:577-586 | deleting keeps the remaining ids distinct and below the counter |
| DividendsController.ApproveKeepsOk | Controllers/DividendsController.cs:408-504 | approval keeps both tables' ids distinct and below their counters |
| DividendsController.ApproveOnlyPending | Controllers/DividendsController.cs:426-441 | a missing declaration is NotFound, a non-Pending one BadRequest, and both leave the tables unchanged |
| DividendsController.ApproveEffect | Controllers/DividendsController.cs:443-494 | a successful approval marks only that declaration Approved with the matching total and appends exactly its payments |
| DividendsController.DividendBook.constructor | Controllers/DividendsController.cs:249-327 | empty tables with both counters at 1 |
| DividendsController.DividendBook.CreateDeclaration | Controllers/DividendsController.cs:249-328 | an invalid body is BadRequest; an existing year is Conflict with no insert; then a declaration, record or payment date outside the DATETIME range is a server error with no insert; otherwise a Pending row with the truncated number is appended |
| DividendsController.DividendBook.UpdateDeclaration | Controllers/DividendsController.cs:329-407 | an invalid body is BadRequest; otherwise the state and reply are UpdateDeclarationOutcome's: year mismatch BadRequest, missing year NotFound, then a date outside the DATETIME range a server error, no Pending row Conflict, else the update with a NULL payment date stored |
| DividendsController.DividendBook.ApproveDeclaration | Controllers/DividendsController.cs:408-504 | the state and reply are ApproveOutcome's |
| DividendsController.DividendBook.ProcessDeclaration | Controllers/DividendsController.cs:506-552 | only an Approved declaration becomes Processed; any other status, a missing id included, is BadRequest with nothing changed |
| DividendsController.DividendBook.DeleteDeclaration | Controllers/DividendsController.cs:554-598 | only a Pending declaration is deleted; any other status, a missing id included, is BadRequest with nothing changed |
| DividendsController.DividendBook.ProcessPayments | Controllers/DividendsController.cs:793-866 | a committed batch applies every listed id in order; a fault, or a payment date outside the DATETIME range with at least one id, rolls the whole batch back with a server error |
| DividendsController.DividendBook.ProcessSinglePayment | Controllers/DividendsController.cs:868-929 | an invalid body is BadRequest; a payment date outside the DATETIME range is a server error; otherwise only a Pending payment of a known member becomes Paid, with the payment number chosen by method, and no such payment is NotFound; every failure changes nothing |
| DividendsController.DividendBook.MarkPaymentFailed | Controllers/DividendsController.cs:931-967 | only a Pending payment becomes Failed, with the given or dated remark; otherwise NotFound and nothing changes |
| LoansController.LoanNumberRoundTrip | Controllers/LoansController.cs:494 | the loan number starts with "LN-" and the id can be read back from the rest |
| LoansController.LoanNumberInjective | Controllers/LoansController.cs:69 | two loans never show the same number |
| LoansController.LoanNumberWidth | Controllers/LoansController.cs:494 | ids below 10000 give seven-character numbers, all digits after the prefix |
| LoansController.MonthlyPayment | Controllers/LoansController.cs:523-528 | with factor 1 the division raises; otherwise the payment satisfies payment x (factor - 1) = principal x monthly rate x factor |
| LoansController.NoGrowthNoPayment | Controllers/LoansController.cs:525-527 | a zero rate or zero term makes the factor 1, so no installment can be computed |
| LoansController.GuarantorColumn | Controllers/LoansController.cs:267-283 | the guarantor column is NULL exactly when no guarantor or guarantor 0 was given, else the id |
| LoansController.RemarksColumn | Controllers/LoansController.cs:284 | empty or missing remarks are stored as NULL, others as given |
| LoansController.NewLoanOwesSchedule | Controllers/LoansController.cs:278-284 | a new loan owes its whole schedule: outstanding balance = total payable = installment x term, nothing approved or disbursed |
| LoansController.OmittedStatusStoredBlank | Controllers/LoansController.cs:205-220 | a body naming member, type, amount, purpose and dates binds status "" and passes AddLoan's checks exactly when type and purpose are not blank and the dates are in range; the row AddLoan then appends stores "", while an explicit null stores "Pending" |
| LoansController.ApproveFromAnyStatus | Controllers/LoansController.cs:375-394 | approval rewrites every row with the id from any status, resetting the balance to the new schedule |
| LoansController.RejectFromAnyStatus | Controllers/LoansController.cs:416-423 | rejection overwrites any status, Approved and Disbursed included, and leaves the figures alone |
| LoansController.DisburseEffect | Controllers/LoansController.cs:445-450 | only an Approved loan with the id is disbursed, starting now and ending TermMonths calendar months later |
| LoansController.DisburseOnce | Controllers/LoansController.cs:445-457 | after a disbursement no row with the id is Approved, so a second request is NotFound |
| LoansController.RejectedLoanCanStillBeDisbursed | Controllers/LoansController.cs:375-450 | a rejected loan that is approved again can be disbursed |
| LoansController.DisbursedLoanCanBeDisbursedAgain | Controllers/LoansController.cs:375-450 | a disbursed loan that is approved again is disbursed a second time, with the new start date and its balance reset to the full schedule |
| LoansController.FindInstallment | Controllers/LoansController.cs:168-170 | the first installment with the id, found exactly when one exists |
| LoansController.MarkPaidEffect | Controllers/LoansController.cs:159-170 | the installment becomes Paid on the date and its loan's balance drops by its total; all other rows are unchanged |
| LoansController.MarkPaidMissing | Controllers/LoansController.cs:164-170 | an unknown installment id changes nothing |
| LoansController.FindAfterPay | Controllers/LoansController.cs:159-164 | paying keeps the installment's id, loan and amount |
| LoansController.MarkPaidTwiceDeductsTwice | Controllers/LoansController.cs:159-170 | marking one installment paid twice deducts its total twice |
| LoansController.GetLoanById | Controllers/LoansController.cs:316-359 | a loan is returned exactly when a row with the id has an existing member, otherwise NotFound |
| LoansController.MarkPaidKeepsOk | Controllers/LoansController.cs:159-170 | paying keeps every id |
| LoansController.LoanBook.constructor | Controllers/LoansController.cs:222-300 | an empty Loans table over the given schedule, counter at 1 |
| LoansController.LoanBook.AddLoan | Controllers/LoansController.cs:222-300 | invalid bodies and unknown members or guarantors are BadRequest; a factor of 1 or an application or creation date outside the DATETIME range is a server error; each changes nothing; otherwise one row is appended with the next id, owing installment x term |
| LoansController.LoanBook.ApproveLoan | Controllers/LoansController.cs:361-406 | a factor of 1 is a server error; a missing id is NotFound; otherwise every row with the id is approved |
| LoansController.LoanBook.RejectLoan | Controllers/LoansController.cs:408-435 | a missing id is NotFound; otherwise every row with the id is Rejected with the remark or "0" |
| LoansController.LoanBook.DisburseLoan | Controllers/LoansController.cs:437-465 | NotFound unless an Approved row has the id; a server error with nothing changed when such a row's end date, TermMonths months from now, falls outside the DATETIME range; otherwise those rows are disbursed |
| LoansController.LoanBook.DeleteLoan | Controllers/LoansController.cs:467-488 | a missing id is NotFound; otherwise the rows with the id are removed, whatever their status |
| LoansController.LoanBook.MarkInstallmentAsPaid | Controllers/LoansController.cs:150-183 | a payment date outside the DATETIME range is a server error that changes nothing; otherwise the reply is Ok whether or not the id exists, and the tables become MarkPaidOutcome's |
| ContributionModel.TypeIsRequired | Models/Contribution.cs:16-23 | a body without a type is refused; with a short non-blank type and amount >= 0.01 it passes |
| ContributionModel.ReceiptNumberRoundTrip | Models/Contribution.cs:50 | the receipt starts with "CT-" and the id can be read back |
| ContributionModel.ReceiptNumberInjective | Models/Contribution.cs:50 | distinct contributions have distinct receipts |
| ContributionModel.ReceiptNumberWidth | Models/Contribution.cs:50 | ids below 1000 give six-character receipts |
| ContributionModel.ListingStatusIsShown | Controllers/ContributionsController.cs:36-41 | the listing's CASE changes only "Confirmed", to "Paid" |
| ContributionModel.StatusShownIdempotent | Controllers/ContributionsController.cs:247 | mapping a mapped status changes nothing, and never yields "Confirmed" |
| ContributionsController.AddAndUpdateStatus | Controllers/ContributionsController.cs:99-107 | add stores "Confirmed" as given and a null status as "Pending"; update stores "Confirmed" as "Paid" |
| ContributionsController.UpdateStoresShownStatus | Controllers/ContributionsController.cs:171-184 | after an update every row with the id holds the mapped status, which reads back unchanged |
| ContributionsController.GetAllContributions | Controllers/ContributionsController.cs:30-47 | the listing holds exactly the rows whose member exists, with name, receipt and mapped status |
| ContributionsController.FindJoined | Controllers/ContributionsController.cs:137-142 | a row is found exactly when one has the id and an existing member |
| ContributionsController.SingleFetchShowsConfirmed | Controllers/ContributionsController.cs:137-156 | as written, a Confirmed contribution reads "Paid" in the listing but "Confirmed" from the single fetch |
| ContributionsController.SingleFetchMatchesListing | Controllers/ContributionsController.cs:127-159 | the corrected single fetch succeeds exactly when the listing holds the id, and returns that listing entry; otherwise NotFound |
| ContributionsController.AsWrittenAgreesOtherwise | Controllers/ContributionsController.cs:137-156 | the code as written and the corrected fetch agree whenever the stored status is not "Confirmed" |
| ContributionsController.ContributionBook.constructor | Controllers/ContributionsController.cs:77-125 | an empty table with the counter at 1 |
| ContributionsController.ContributionBook.AddContribution | Controllers/ContributionsController.cs:77-125 | an invalid body is BadRequest; a contribution or creation date outside the DATETIME range is a server error; each changes nothing; otherwise one row is appended with the next id, holding the body's values and "Pending" for a null status |
| ContributionsController.ContributionBook.UpdateContribution | Controllers/ContributionsController.cs:163-196 | an invalid body is BadRequest; a null status or a contribution date outside the DATETIME range is a server error even for a missing id; a missing id NotFound; otherwise the rows with the id take the body with the mapped status |
| ContributionsController.ContributionBook.DeleteContribution | Controllers/ContributionsController.cs:198-219 | a missing id is NotFound; otherwise the rows with the id are removed |
| Settings.EqualsIsValueEquality | Models/SaccoSettings.cs:118-153 | Equals holds exactly for a settings object with every field equal, never for another type or null |
| Settings.EqualsIsEquivalence | Models/SaccoSettings.cs:118-153 | Equals is reflexive, symmetric and transitive |
| Settings.CloneEquals | Models/SaccoSettings.cs:113-116 | a clone equals its original, and changing a field of the clone makes them differ |
| Settings.RoundHalfEven | Models/SaccoSettings.cs:28-109 | the result is the nearest whole number, within half a unit of the input, and a value exactly halfway goes to the even neighbour |
| Settings.EmailAddressMeaning | Models/SaccoSettings.cs:80 | the address passes exactly when it holds a single '@' that is neither first nor last |
| Settings.HalfUnitOutsideAccepted | Models/SaccoSettings.cs:28-30 | a share price of 9.5 passes the 10–10000 range as the attribute checks it |
| Settings.StatedRangeImpliesAsWritten | Models/SaccoSettings.cs:28-109 | every value inside the stated ranges also passes the rounded check |
| Settings.EmailOfParts | Models/SaccoSettings.cs:80 | a non-empty local part and domain without '@' joined by '@' pass |
| Settings.DefaultTextsPresent | Models/SaccoSettings.cs:9-106 | every required text default except the registration number is present and not blank |
| Settings.DefaultsNeedRegistrationNumber | Models/SaccoSettings.cs:10-111 | the defaults satisfy every range and the e-mail check, but are refused until a registration number is entered |
| Settings.NoCrossFieldCheck | Models/SaccoSettings.cs:15-42 | minimum shares above maximum shares, and a fiscal year ending before it starts, are accepted |
| Calendar.AddMonths | Controllers/LoansController.cs:449 | DATEADD(MONTH) keeps the time of day and clamps the day to the month reached |
| Calendar.AddMonthsValid | Controllers/LoansController.cs:449 | DATEADD from a valid date gives a valid date whenever the year reached lies in 1753–9999, the only case in which the statement succeeds |
| Calendar.StampLengths | Controllers/DividendsController.cs:278 | the MMddHHmm and yyyyMMddHHmmss stamps are 8 and 14 digits |
| Text.FormatDRoundTrip | Models/Contribution.cs:50 | a number formatted with D<n> parses back to itself |
| Text.FormatDLength | Models/Contribution.cs:50 | D<n> writes max(n, number of digits) digits |
| Text.FormatDInjective | Models/Contribution.cs:50 | distinct numbers never share a D<n> text |
| Tables.UpdateWhere | Controllers/LoansController.cs:375-385 | UPDATE rewrites exactly the matching rows and moves none |
| Tables.DeleteWhere | Controllers/LoansController.cs:467-488 | DELETE keeps exactly the non-matching rows: none that matches, every one that does not, and nothing else |
| Tables.DeleteWhereAppend | Controllers/LoansController.cs:467-488 | DELETE keeps the surviving rows in their order: deleting from two stretches one after the other is deleting from the whole |
| Tables.DeleteCount | Controllers/ContributionsController.cs:206-211 | DELETE removes exactly the number of rows it reports affected |

## Left out

- Database access, connections, async execution, readers and column decoding are not modelled. Each table is a sequence of rows, and each request runs atomically; concurrent requests are not modelled.
- Floating point is not modelled. `CalculateMonthlyPayment` goes through `double` and `Math.Pow`, so the factor `(1 + monthly rate)^term` is a `growth` parameter. `LoansController.MonthlyPayment` states the annuity relation it satisfies and does not model rounding.
- LoansController.MonthlyPayment: decimal arithmetic is exact real arithmetic. It does not model the 28-digit precision, overflow or rounding of .NET `decimal`, and the same holds for every amount in the model.
- Integer width is not modelled. The `SUM(Units)` of a member's balance, `Units - @Units`, and identity values are unbounded integers, so 32-bit overflow is not modelled.
- Settings.InIntRangeAsWritten: `Convert.ToInt32` raises an OverflowException for a decimal outside the 32-bit range, which the range check does not catch. The model rounds any value and compares it, so it does not model that exception.
- ORDER BY clauses of the listing endpoints are left out. The FIFO read orders lots by date, and lots bought at the same instant keep their table order; SQL leaves that order unspecified.
- The read-only endpoints outside the listed operations are not part of this model: GetAllLoans, GetLoanInstallments, the shares listings and summary, the dividend summary and payment listings, and GetEligibleMembers. They are SQL aggregation with no rule beyond what the model already states.
- `Uri.UnescapeDataString` and `WebUtility.UrlDecode` on route values are not modelled: the route text is the decoded year. The case-insensitive comparison of `UpdateDeclaration` is modelled for ASCII letters only.
- ContributionsController.GetContributionByIdAsWritten: the single fetch reads PaymentMethod, TransactionRef and Remarks with `?.ToString()`, so a NULL column shows as "" where the listing shows null. The model returns `None` in both, so the as-written fetch differs from the listing only in the status.
- Text lengths count Unicode scalar values, not the UTF-16 code units that `[StringLength(n)]`, `[MaxLength]` and `Substring` count. A character outside the Basic Multilingual Plane counts once in the model and twice in the code, so every length check and the declaration number's 20-character cut accept more such text than the code does.
- SQL Server's case-insensitive collation for `=` on text is not modelled: string comparisons in `WHERE` clauses are exact.
- Failures that depend on database constraints are not modelled. These are column-length limits beyond the validation attributes and foreign-key errors on insert or delete. The exceptions are the DATETIME range of the dates a client sends and of the end date `DisburseLoan` computes with DATEADD, and the transaction fault position of TransferShares and ProcessPayments. The current time (`now`) is always inside that range, so no method checks it.
- The identity values consumed by a rolled-back transfer are not modelled. After a rollback the model restores the counter, while SQL Server does not reuse identity values.
- `GetHashCode` of the settings record is left out: it calls `HashCode`, a library call, and promises nothing beyond agreeing with `Equals`.
- The text of dates embedded in remarks and messages depends on the server's culture. It is a parameter (`nowText`).
- The user id is the constant 1 that the code writes (`DividendModel.SystemUser`). Authentication is not modelled.
- CreatedBy of a contribution is bound but written by neither the INSERT nor the UPDATE, so the stored row does not keep it.
- `CancelShare`, `MarkPaymentFailed` and `RejectLoan` take a JSON string body. A body that binds to null is modelled as `None`.
- A batch whose method map holds a null value is not modelled. The method is always a string.
- MarkInstallmentAsPaid with duplicate installment ids would make the scalar subquery fail. The model keeps installment ids distinct as an invariant and does not model that error.
- `DeleteDeclaration`'s NotFound after the status check cannot be reached, since a missing row already fails the status check. The model keeps the reply of the reachable path only.
- The implicit `[Required]` that the framework adds to non-nullable reference properties is modelled only where the code declares it explicitly. A missing non-nullable string elsewhere is a `None` that passes.

## Findings

| source | as written | input that shows it | evidently intended | confidence | as-written member | corrected member |
|---|---|---|---|---|---|---|
| Controllers/DividendsController.cs:379 | the UPDATE hands a null `PaymentDate` to `AddWithValue` as a plain null, which the database rejects as a missing parameter, so the request fails with a server error | a Pending declaration and a valid body for its year, with in-range declaration and record dates and `PaymentDate` null | clear the payment date (store NULL), as `CreateDeclaration` does at line 304 | not executed | DividendsController.UpdateWithoutPaymentDateFails | DividendsController.UpdateStoresRequest |
| Controllers/ContributionsController.cs:138-139 | the query selects `c.*` and then the mapped status under the same name, and reading the column by name at line 231 returns the first, the stored status | a contribution stored with status "Confirmed" | show "Paid", as the listing does for the same row | not executed | ContributionsController.SingleFetchShowsConfirmed | ContributionsController.SingleFetchMatchesListing |
