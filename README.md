# MoneyTracker accounting engine in Dafny

This project models the transaction accounting engine of MoneyTracker, a personal finance ledger. It covers all of `logic.py` and the pure helpers and row-table operations that `app.py` embeds in its screens.

A ledger record is a `Transaction`: id, timestamp, type, sub-type, amount, date, texts, flags, link id and shared splits. The engine does the following:

- stores a record as a flat row of text cells plus a JSON cell of shared splits, and reads it back liberally;
- validates records;
- builds them through factories:
  - plain expense and income;
  - the linked credit-card expense/debt pair;
  - the card payment;
  - the debt clearance;
- derives, from a list of records:
  - the balance and the cash balance;
  - the outstanding card debt;
  - the savings buckets;
  - the per-category totals;
  - the per-participant shared-expense summary.

The shared-expense allocator splits one record among its participants. From `app.py` the model takes:

- the participant-list parser of the add dialogs;
- date parsing with a fallback to today;
- the 19th-to-18th billing-cycle arithmetic;
- the "clear debt on the 19th" guard;
- the per-cycle card-debt loop;
- the participant detail net total, with its `DEBT_BORROWED` sign inversion;
- the transaction list filters;
- delete-by-id and edit-in-place over the stored row list.

Money is integer cents throughout. Every `round(x, 2)` of a stored amount is then the identity. The one true division, `remaining / count` in the allocator, is `Allocation.RoundDiv`: round half up, within half a cent. Clocks, fresh ids, the settings file and `json.loads` are parameters: `today`, `now`, `freshId`, `settings`, `loads`.

Modules:

- `Options`, `Text`, `Decimal`, `Calendar`, `JsonValues`, `Seqs` model the Python built-ins the engine relies on: `str.strip`/`lower`/`upper`/`split`, `float()` and `f"{x:.2f}"`, `date.fromisoformat`/`isoformat`, `datetime.fromisoformat`/`isoformat`, `strptime`/`strftime`, and JSON values as `json.loads` returns them.
- `Ledger` holds the records, the split codec and the row codec. `Validation` holds the validator and `Factories` the `create_*` functions and `link_transactions`.
- `Balances`, `Debts`, `Summaries`, `Shares` (a Python dict as an ordered association list), `Allocation` and `SharedSummary` hold the aggregations. Each loop of the source is a method proved against a prefix-recursive specification function; the properties are lemmas about that function.
- `Entries`, `Dashboard`, `ParticipantDetail` and `TransactionsScreen` hold the `app.py` helpers. The stored row list that `delete_transaction` and `_save_edited_transaction` rewrite is the `rows` field of the class `TransactionsScreen.RowTable`.

Where the documented design and the code disagree, the model follows the code:

- `compute_outstanding_debt` returns one figure:
  - it is a fold over sub-types, with resets as truncation points;
  - it has no floor at zero and no billing-cycle or borrowed-debt buckets.
- `compute_balance` does not exclude the `DEBT_BORROWED` device.
- `create_debt_clearance_transaction` changes neither the debt nor the balance (`Debts.ClearanceKeepsDebt`, `Balances.ClearanceKeepsBalance`).
- `compute_shared_allocations` hands every unspecified participant but the last the full rounded base share, and the last what is left, floored at zero. So its allocations can exceed what is left (Findings). `Allocation.ComputeSharedAllocations` computes exactly that, and the shared-expense summary and the participant detail are built on those shares. The intended distribution, whose shares add up to what is left, is modelled beside it as `Allocation.SharedAllocations`.
- `transaction_from_row` can raise (Findings).

## Model

| member | source | states |
|---|---|---|
| Ledger.NormalizeAmount | logic.py:109-111 | the normalised amount is never negative; it is the amount or its negation, and a non-negative amount is kept |
| Ledger.CreditCardDevicesAllowed | logic.py:82-83 | both card devices are among the allowed devices |
| Ledger.SerializeSharedSplits | logic.py:71-77 | the split cell is empty exactly when there are no splits |
| Ledger.EncodeSplits | logic.py:71-77 | one `{name, amount}` object per split, in order |
| Ledger.DecodeSplit | logic.py:57-67 | an item that decodes gives a split whose name is non-blank and stripped; non-mappings and blank names give nothing |
| Ledger.DecodedList | logic.py:57-67 | an item contributes at most one split, and its name is non-blank and stripped |
| Ledger.DecodeSplits | logic.py:56-68 | decoding never yields more splits than there are items |
| Ledger.DecodedNamesStripped | logic.py:56-68 | every split decoded from a list has a non-blank, stripped name |
| Ledger.SplitsOfCell | logic.py:47-68 | an empty cell and text `json.loads` refuses both give no splits; every split read has a non-blank, stripped name |
| Ledger.DeserializeSharedSplits | logic.py:47-68 | the loop over the decoded document raises TypeError exactly when the document is a number, boolean or null; otherwise it returns the splits `Ledger.SplitsOfCell` specifies |
| Ledger.DecodeEncodedSplit | logic.py:57-76 | decoding the object written for a split with a non-blank stripped name gives the split back, amount included |
| Ledger.DecodeEncodedSplits | logic.py:56-76 | decoding the list written for well-named splits gives the same list back |
| Ledger.SplitsRoundTrip | logic.py:47-77 | `_deserialize_shared_splits(_serialize_shared_splits(s)) == s` when every name is non-blank and stripped |
| Ledger.TransactionToRow | logic.py:168-188 | `shared_flag` is written `"True"` exactly when the flag is set and there are splits; the split cell is empty exactly when there are no splits |
| Ledger.TransactionFromRow | logic.py:115-166 | the decoded flag implies non-empty splits; split names are non-blank and stripped; the date and timestamp are real whenever the fallbacks are |
| Ledger.FromRowDefaults | logic.py:118-147 | a bad amount reads as 0 and a missing one as 0; a bad date reads as today and a bad timestamp as now; a missing id becomes the fresh id; unparsable split text gives no splits and no flag; the flag is a truth word and non-empty splits |
| Ledger.RowRoundTrip | logic.py:115-188 | `transaction_from_row(transaction_to_row(tx)) == tx` for a record with a real date and timestamp, whose flag implies splits and whose split names are non-blank and stripped |
| Ledger.RowFields | logic.py:170-187 | each text column of the row is present and holds its field, formatted as `transaction_to_row` formats it |
| Ledger.IdentityFields | logic.py:171-175 | the id, timestamp, type, sub-type and amount columns |
| Ledger.DescriptiveFields | logic.py:176-180 | the date, description, category, device and location columns |
| Ledger.FlagFields | logic.py:181-186 | the occasion, effects_balance, linked id, shared_flag and notes columns |
| Ledger.RowColumns | logic.py:170-187 | the row's text columns are exactly the fifteen of the table |
| Ledger.TruthWords | logic.py:122-123 | `"True"` reads back as true and `"False"` as false |
| Ledger.TransactionFromRowAsWritten | logic.py:145-146 | `transaction_from_row` as written raises TypeError exactly when the split cell holds a JSON number, boolean or null; otherwise it returns `Ledger.TransactionFromRow` |
| Ledger.SplitNumberRaises | logic.py:56 | a split cell holding the JSON number 5 makes the decoder as written raise, where the corrected decoder reads no splits |
| Validation.TypeErrors | logic.py:196-197 | an unsupported-type error is reported exactly when the type is not income, expense or transfer |
| Validation.DeviceErrors | logic.py:199-200 | an unsupported-device error is reported exactly when the device is non-empty and not allowed |
| Validation.AmountErrors | logic.py:202-203 | an amount error is reported exactly when the amount is not positive |
| Validation.DateErrors | logic.py:205-208 | a date error is reported exactly when the date does not read back through `isoformat`/`fromisoformat` |
| Validation.ValidateTransaction | logic.py:193-211 | the record is valid exactly when no error is collected; each error is present exactly when its rule is broken; at most four errors |
| Validation.DateCheckExact | logic.py:205-208 | a date reads back through `isoformat`/`fromisoformat` exactly when it is a real calendar date |
| Validation.ValidIff | logic.py:193-211 | valid exactly when the type is allowed, the device is empty or allowed, the amount is positive and the date is real |
| Factories.CleanDevice | logic.py:544-547 | the stored device is always allowed, and it is the upper-cased device whenever that is allowed; an empty or unknown device becomes `OTHER` |
| Factories.CardDevice | logic.py:464-466 | the card purchase device is always a card device, and it is the upper-cased device whenever that is a card device; otherwise it is `CREDIT_CARD` |
| Factories.NewTransaction | logic.py:549-568 | the record has the normalised amount, a cleaned device (`OTHER` when empty or unknown) and an empty link id; its flag is set exactly when asked for with splits; notes are kept only when the flag is set; every other field is as given |
| Factories.CreateExpenseTransaction | logic.py:528-568 | an expense with the given id, time and date, a non-negative normalised amount, a device from the allowed set (`OTHER` when empty or unknown), no link, shared exactly when the flag is set and splits were given, notes only when shared, every other field as passed |
| Factories.CreateIncomeTransaction | logic.py:570-610 | an income with the given id, time and date, a non-negative normalised amount, a device from the allowed set (`OTHER` when empty or unknown), no link, shared exactly when the flag is set and splits were given, notes only when shared, every other field as passed |
| Factories.LinkTransactions | logic.py:612-617 | both records get the same link id and are otherwise unchanged; an existing parent or child link id is reused, in that order; otherwise a non-empty fresh id gives a non-empty link |
| Factories.LinkIdempotent | logic.py:612-617 | linking an already linked pair again changes nothing |
| Factories.CreateCreditCardExpense | logic.py:453-501 | the pair `create_credit_card_expense` builds; its contract is `Factories.CreditCardPairShape` |
| Factories.CreditCardPairShape | logic.py:453-501 | a `credit_card_expense` expense and a `credit_card_debt` income (category `Debt`, description `"Debt for: "` + description); same normalised amount, device and date; neither moves the balance; the device is a card device, `CREDIT_CARD` by default; one shared non-empty link id; the debt half is not shared |
| Factories.UpperCardDevice | logic.py:464-478 | the card device chosen is already upper case and allowed, so the expense factory keeps it |
| Factories.CreateCreditCardPayment | logic.py:619-639 | an expense of sub-type `credit_card_payment` that moves the balance, is not shared and has the normalised amount |
| Factories.CreateDebtClearanceTransaction | logic.py:642-658 | an expense of sub-type `credit_card_debt` in category `Debt` that does not move the balance and has the normalised amount |
| Factories.FactoryOutputValid | logic.py:528-568 | a plain expense or income on a real date passes validation exactly when the amount is non-zero |
| Balances.ComputeBalance | logic.py:215-229 | the loop returns the balance fold of the records from the initial balance |
| Balances.BalanceIsIncomeMinusExpense | logic.py:215-229 | the balance is initial + Σ income − Σ expense over records that move the balance and are not card purchase or card debt halves |
| Balances.BalanceShift | logic.py:215-229 | shifting the initial balance by Δ shifts the result by Δ |
| Balances.BalanceAppend | logic.py:215-229 | the balance of a + b is the balance of b from the balance of a |
| Balances.BalanceSnoc | logic.py:218-228 | one more record changes the balance by that record's step alone |
| Balances.CreditCardPairKeepsBalance | logic.py:219-223 | appending a credit-card purchase pair changes neither the balance nor the cash balance |
| Balances.PaymentLowersBalance | logic.py:226-228 | appending a card payment lowers the balance by its normalised amount |
| Balances.ClearanceKeepsBalance | logic.py:219-223 | appending a debt clearance leaves the balance unchanged |
| Balances.CashSnoc | logic.py:234-245 | one more record changes the cash balance by that record's cash step alone |
| Balances.ComputeCashBalance | logic.py:231-246 | the loop returns the cash balance fold of the records |
| Balances.CashOnly | logic.py:240 | the cash records keep only device `CASH` |
| Balances.CashIsBalanceOfCash | logic.py:231-246 | the cash balance is the balance of the cash records alone |
| Debts.ResetDates | logic.py:256-260 | the reset dates are no more than the records |
| Debts.LatestDate | logic.py:264 | the latest reset date is one of them and no other is after it |
| Debts.OnOrAfter | logic.py:265 | the kept records are dated on or after the last reset, and no more than the records |
| Debts.ComputeOutstandingDebt | logic.py:248-300 | the method returns the debt the specification fold gives |
| Debts.CollectResetDates | logic.py:256-260 | the first loop collects the dates of the reset markers |
| Debts.KeepOnOrAfter | logic.py:263-265 | the list comprehension keeps the records on or after the last reset |
| Debts.FoldDebt | logic.py:268-300 | the main loop returns the total of the debt fold |
| Debts.LatestOf | logic.py:264 | `max(reset_dates)` |
| Debts.ProcessedAreIds | logic.py:268-298 | `processed_ids` only ever holds ids of records seen |
| Debts.DebtSnoc | logic.py:271-298 | one more record is one step of the fold and adds its date to the resets when it is a reset marker |
| Debts.NoResetWindow | logic.py:263-265 | without reset markers every record is counted |
| Debts.NotMarker | logic.py:490 | a debt half's description is never the reset marker |
| Debts.DebtPairAdds | logic.py:282-298 | a purchase pair with a fresh debt id adds the debt half's amount |
| Debts.CreditCardPairAddsDebt | logic.py:453-501 | `create_credit_card_expense` adds its normalised amount to the outstanding debt |
| Debts.PaymentLowersDebt | logic.py:289-292 | a card payment with a fresh id lowers the debt by its normalised amount |
| Debts.ClearanceKeepsDebt | logic.py:642-658 | a debt clearance leaves the debt unchanged: its docstring's promise to zero the debt does not hold |
| Debts.DebtCanBeNegative | logic.py:289-290 | a lone 5.00 card payment gives a debt of −5.00: there is no floor at zero |
| Debts.ResetDatesBounded | logic.py:256-260 | every collected reset date is bounded by a bound on the markers' dates |
| Debts.ResetZeroesDebt | logic.py:263-275 | a reset marker that is the latest reset, appended last, leaves a debt of zero |
| Summaries.SavingsSnoc | logic.py:314-325 | one more record changes each savings label by that record's delta |
| Summaries.DepositDelta | logic.py:317-320 | an expense in a savings category adds its amount to that category's label only |
| Summaries.WithdrawDelta | logic.py:321-323 | a savings withdrawal takes its amount from `Savings` only |
| Summaries.NoDelta | logic.py:314-325 | any other record changes no label |
| Summaries.ComputeSavingsTotals | logic.py:302-327 | the result has exactly the four savings labels, each the opening balance from the settings plus deposits, less withdrawals for `Savings` |
| Summaries.AdvanceSavings | logic.py:314-325 | one pass of the loop keeps the totals equal to those of the records seen |
| Summaries.AddSavingsRecord | logic.py:315-325 | one record changes each label by exactly its delta and keeps the label set |
| Summaries.OpeningSavings | logic.py:304-312 | before any record each of the four labels holds its opening balance from the settings, and there are no other keys |
| Summaries.CategoryLabelsAreLabels | logic.py:90-95 | every savings category maps to one of the four labels |
| Summaries.SavingsIsLabel | logic.py:307 | the withdrawal label is a savings label |
| Summaries.LabelValues | logic.py:90-95 | the four category labels are exactly the savings labels |
| Summaries.LabelsDistinct | logic.py:90-95 | the four savings labels are distinct |
| Summaries.DepositMovesOneLabel | logic.py:317-320 | a savings-category expense moves its amount into its own label and leaves the others alone |
| Summaries.CategorySnoc | logic.py:338-344 | one more record adds its amount to its category's total if it is an expense, and nothing otherwise |
| Summaries.SummarizeByCategory | logic.py:335-346 | a category is a key exactly when some expense falls in it (`Uncategorized` for blank), and its value is the sum of those expenses |
| Summaries.AddExpense | logic.py:339-344 | one pass of the loop adds an expense to its category and creates the key if needed |
| Summaries.CategorySnocAll | logic.py:338-344 | the one-step change of `Summaries.CategorySnoc`, for every category at once |
| Summaries.NoExpenseNoTotal | logic.py:335-346 | a category with no expense totals zero |
| Shares.GetAbsent | logic.py:374 | `dict.get(name, 0.0)` of a missing name is zero |
| Shares.GetNonNegative | logic.py:374 | a dict of non-negative shares gives a non-negative entry |
| Shares.PutGet | logic.py:374 | writing a key changes that key only; a new key is appended in insertion order |
| Shares.PutNonNegative | logic.py:374 | writing a non-negative value keeps every value non-negative |
| Shares.PutDistinct | logic.py:374 | writing keeps the keys distinct |
| Shares.PutSum | logic.py:374 | writing changes the sum of values by the new value less the old one |
| Shares.AddSum | logic.py:374 | adding to a key raises the sum by the amount added |
| Shares.NonNegativeSum | logic.py:376 | non-negative values have a non-negative sum |
| Shares.GetSnoc | logic.py:374 | with distinct keys, a last entry adds to its own key only |
| Allocation.RoundDiv | logic.py:386-392 | `round(remaining / count, 2)` in cents is within half a cent of the exact quotient |
| Allocation.UnspecifiedAfter | logic.py:365-371 | one split adds at most one unspecified participant |
| Allocation.Unspecified | logic.py:359-371 | no more unspecified participants than splits |
| Allocation.ShareAt | logic.py:388-392 | in the intended distribution, a share lies between zero and what is left, and the last participant gets all that is left |
| Allocation.Distribute | logic.py:381-394 | the intended distribution, never handing out more than `remaining` before the last participant |
| Allocation.ComputeSharedAllocations | logic.py:349-396 | the method returns the allocations as the code computes them, `Allocation.SharedAllocationsAsWritten`; what they total is `Allocation.AsWrittenTotal` |
| Allocation.ClassifySplits | logic.py:359-374 | the loop collects the explicit shares and the unspecified participants of the splits |
| Allocation.ClassifyStep | logic.py:359-374 | one more split is one step of each collection |
| Allocation.DistributeRemaining | logic.py:386-394 | the loop over the unspecified participants returns the distribution as written: the full base share to all but the last, and what is left, floored at zero, to the last |
| Allocation.AddNonNegative | logic.py:374 | adding a non-negative share keeps every share non-negative |
| Allocation.ExplicitNonNegative | logic.py:368-374 | explicit shares are absolute values, so all are non-negative |
| Allocation.DistributeSum | logic.py:386-394 | the corrected distribution adds exactly `remaining` to the sum and keeps shares non-negative |
| Allocation.AllocationsTotal | logic.py:376-394 | all shares are non-negative; they sum to the explicit total when no one is unspecified, and to the larger of the record's amount and the explicit total otherwise |
| Allocation.NoAllocationsUnlessShared | logic.py:352-353 | an unshared record or one without splits allocates nothing |
| Allocation.AsWrittenSum | logic.py:386-394 | as written, the distributed part is (count − 1) × the rounded base share, and the last share is `max(remaining − distributed, 0)` |
| Allocation.AsWrittenAgrees | logic.py:386-394 | when (count − 1) × base ≤ remaining, the code as written and the corrected distribution agree |
| Allocation.OverAllocation | logic.py:389-394 | 0.07 split over nine participants hands out 0.08 as written and 0.07 corrected |
| Allocation.NineShareSeven | logic.py:389-394 | the same over-allocation on top of any explicit shares |
| Allocation.DistributeAsWritten | logic.py:386-394 | the loop as written; what it hands out is stated by `Allocation.AsWrittenSum` and `Allocation.AsWrittenShares` |
| Allocation.SharedAllocationsAsWritten | logic.py:349-396 | `compute_shared_allocations` as written; what its allocations total is stated by `Allocation.AsWrittenTotal` |
| Allocation.AsWrittenNonNegative | logic.py:388-394 | as written, every share handed out is at least zero |
| Allocation.AsWrittenShares | logic.py:386-394 | as written, the equal shares are never negative, and they add exactly what is left whenever (count − 1) × base ≤ remaining |
| Allocation.AsWrittenTotal | logic.py:349-396 | as the code computes them, allocations are never negative; they total the explicit shares when no one is unspecified, and the larger of the record's amount and the explicit total whenever the base shares fit in what is left |
| Allocation.OverAllocatedRecord | logic.py:349-396 | a shared record of 0.07 with nine unspecified participants allocates 0.08 as written and 0.07 corrected |
| Allocation.AddDistinct | logic.py:374 | adding keeps the participant names distinct |
| Allocation.ExplicitDistinct | logic.py:368-374 | explicit shares are kept once per name |
| Allocation.DistributeDistinct | logic.py:388-394 | distribution keeps the names distinct |
| Allocation.AsWrittenDistinct | logic.py:388-394 | the distribution as written keeps the names distinct |
| Allocation.AllocationsDistinct | logic.py:349-396 | each participant appears once in the allocations, both as the code computes them and as intended |
| SharedSummary.MatchName | logic.py:431-435 | the matched original name lowercases to the filter key and is one of the participants |
| SharedSummary.Details | logic.py:412-440 | every detail row holds a counted record and its full allocation map, as `compute_shared_allocations` computes it |
| SharedSummary.SummarySnoc | logic.py:412-443 | one more record appends its detail and changes each net total by its signed share, when it counts |
| SharedSummary.SummarizeSharedExpenses | logic.py:399-450 | the details are those of the counted records; a name is in the summary exactly when its net total is non-zero, and maps to that total |
| SharedSummary.SummarizeRecord | logic.py:413-443 | one pass of the loop appends the detail and adds the signed shares |
| SharedSummary.AddShares | logic.py:442-443 | the inner loop adds each share, signed by expense or income, to the running totals |
| SharedSummary.FilterKeepsOneParticipant | logic.py:431-438 | with a participant filter, every other name nets zero |
| SharedSummary.UnfilteredNet | logic.py:429-443 | without filters, a participant's net is their expense shares less their refund shares |
| ParticipantDetail.DetailSign | app.py:1651-1656 | the sign is ±1; without `DEBT_BORROWED` it is +1 exactly for expenses |
| ParticipantDetail.UpdateParticipantNet | app.py:1637-1659 | nothing when there are no records; otherwise the signed sum of the shares whose name lowercases to the participant |
| ParticipantDetail.AddMatching | app.py:1648-1659 | the inner loop adds the signed shares of the matching names |
| ParticipantDetail.AllocationNetGet | app.py:1648-1659 | with distinct names and only the key matching, the net is the sign times the participant's share |
| ParticipantDetail.AllocationNetNegates | app.py:1655-1658 | flipping the sign negates the net |
| ParticipantDetail.BorrowedFlipsSign | app.py:1655-1656 | tagging a record `DEBT_BORROWED` negates its contribution |
| ParticipantDetail.SignedBySign | app.py:1651-1652 | without `DEBT_BORROWED` the detail sign is the summary's expense/income sign |
| ParticipantDetail.ParticipantNetIsSummaryNet | app.py:1647-1659 | without `DEBT_BORROWED` and with only the key matching, the detail net equals the summary's unfiltered net |
| Dashboard.WellFormedOrdered | app.py:623-624 | a cycle from a 19th to the next month's 18th starts before it ends |
| Dashboard.FourDaysAfter28th | app.py:628 | `replace(day=28) + 4 days` lands in the first days of the next month |
| Dashboard.EndOfPreviousMonth | app.py:633 | `replace(day=1) − 1 day` is the last day of the previous month |
| Dashboard.FirstOfMonthAfterFirstMonth | app.py:628-629 | the step back from the next month never underflows |
| Dashboard.CurrentBillingCycleAsWritten | app.py:623-636 | None exactly where Python's date arithmetic overflows; otherwise both ends are real dates |
| Dashboard.CurrentBillingCycle | app.py:623-636 | the cycle the docstring describes: well formed (19th to the next 18th) and containing today |
| Dashboard.PreviousBillingCycle | app.py:638-650 | a well-formed cycle that ends before today |
| Dashboard.CyclesAdjoin | app.py:623-650 | the previous cycle ends the day before the current one starts |
| Dashboard.CurrentCycleAsWrittenEndsEarly | app.py:627-630 | from the 19th on, the cycle as written ends before it starts and before today; before the 19th it is the intended cycle |
| Dashboard.ShouldClearDebt | app.py:830-847 | true only on the 19th, and always on the 19th when no clearing is recorded |
| Dashboard.MarkDebtCleared | app.py:849-853 | sets `last_debt_cleared` to today as `YYYY-MM-DD` text and keeps every other setting as it was |
| Dashboard.ClearedOncePerMonth | app.py:830-853 | after marking, no clearing again that month, and a clearing on the 19th of any other month |
| Dashboard.CycleDebt | app.py:664-682 | the cycle's card debt is never negative |
| Dashboard.CycleDebtAtMostCharges | app.py:668-682 | the debt is at most the cycle's charges, and equals them when the cycle has no payment |
| Dashboard.DecodedRows | app.py:657-658 | one record per row |
| Dashboard.OutstandingBalanceForCycle | app.py:652-684 | the corrected loop returns the cycle debt of the decoded rows, never negative |
| Dashboard.CountRow | app.py:657-682 | one row of the loop advances the debt to that of one more row |
| Dashboard.CountInCycle | app.py:664-682 | the loop body skips records outside the cycle, adds card charges and takes card payments off down to zero |
| Dashboard.DecodeRaises | logic.py:145-146 | decoding a row raises exactly when its split cell holds a JSON scalar |
| Dashboard.OutstandingBalanceForCycleAsWritten | app.py:652-684 | as written: it raises when some row's split cell holds a JSON scalar, and otherwise returns 0 |
| Dashboard.CycleChargeCounted | app.py:658-661 | a 5.00 card purchase on 20 March counts 5.00 in the 19 March–18 April cycle once the record's date is read |
| Entries.ParseDateOrToday | app.py:121-130 | always a real date when today is one; blank text gives today |
| Entries.DateOrTodayReadsIso | app.py:125-127 | a date written `%Y-%m-%d` reads back as itself |
| Entries.DateOrTodayReadsDayFirst | app.py:125-128 | a date written `%d-%m-%Y` or `%d/%m/%Y` reads back as itself |
| Entries.DayFirstStrptime | app.py:125-128 | `%Y-%m-%d` refuses day-first text, which the day-first format reads |
| Entries.EntryOf | app.py:154-166 | an entry that is kept has a non-blank, stripped, lower-case name |
| Entries.StrippedPieces | app.py:151 | one stripped piece per comma-separated chunk |
| Entries.EntriesOf | app.py:152-166 | no more entries than pieces, each with a well-formed name |
| Entries.ParseSharedEntries | app.py:146-167 | the loop returns the entries the specification function gives, each with a non-blank, stripped, lower-case name |
| Entries.EntryRoundTrip | app.py:154-166 | an entry written `name` or `name:amount` parses back to itself |
| Entries.EntriesRoundTrip | app.py:152-166 | the written pieces parse back to the entries |
| Entries.SharedEntriesRoundTrip | app.py:146-167 | a comma-joined participant list parses back to its entries |
| TransactionsScreen.FiltersNarrow | app.py:946-962 | empty filters match every record; a longer filter only matches records its prefix matches |
| TransactionsScreen.DeviceFilterFoundInText | app.py:947-959 | a record the device filter matches is also matched by the same text filter |
| TransactionsScreen.WithoutId | app.py:1027 | filtering never adds rows |
| TransactionsScreen.WithoutIdKeeps | app.py:1027-1032 | a row is kept exactly when it is a row without the id; the length is unchanged exactly when no row has the id, and then the list is unchanged |
| TransactionsScreen.WithoutIdIdempotent | app.py:1027 | deleting the same id twice is deleting it once |
| TransactionsScreen.LocateId | app.py:1234-1235 | the search stops at the first row with the id, or at the first row without an `id` key (KeyError), having passed only keyed rows without the id |
| TransactionsScreen.RowTable.DeleteTransaction | app.py:1020-1063 | with every row keyed, the table becomes the rows without the id, reported deleted exactly when one had it; a row without `id` raises KeyError and nothing changes |
| TransactionsScreen.RowTable.WriteEdit | app.py:1234-1251 | the first row with the id is replaced by its edit and every other row is kept; unchanged when the id is absent or a KeyError stops the search |
| TransactionsScreen.RowTable.SaveEditedTransactionAsWritten | app.py:1215-1290 | as written: the participant text itself goes into the split cell |
| TransactionsScreen.RowTable.SaveEditedTransaction | app.py:1215-1290 | corrected: the participant text is parsed as the add dialog parses it and serialised as the factories store it |
| TransactionsScreen.LocateStops | app.py:1234-1235 | past keyed rows without the id, the search stops at the next row with the id or without a key |
| TransactionsScreen.LocateAbsent | app.py:1234-1235 | when every row is keyed and none has the id, the search reports it absent |
| TransactionsScreen.EditedCells | app.py:1237-1245 | the edited row holds the amount as `.2f`, the texts, the `%Y-%m-%d` date, the flag as `"1"`/`"0"`, the notes and the new timestamp |
| TransactionsScreen.EditedFields | app.py:1237-1245 | the edit adds its columns and leaves every other cell as it was |
| TransactionsScreen.FlagWords | app.py:1242 | `"1"` reads back as true and `"0"` as false |
| TransactionsScreen.EditReadsBack | app.py:1237-1245 | a row edited with parsed participants reads back as the edit: amount, texts, date, timestamp and notes as saved, the participants as parsed, and the flag set when asked for and someone shares |
| TransactionsScreen.ReadBack | logic.py:115-166 | any row holding the cells an edit writes reads back as the edit |
| TransactionsScreen.RawParticipantsLost | app.py:1243 | the participant text "alice", stored as typed, reads back with no splits and no flag; parsed, it reads back as alice and shared |
| Calendar.IsoDateRoundTrip | logic.py:131-135 | `date.fromisoformat(d.isoformat()) == d` for a real date |
| Calendar.IsoDateCanonical | logic.py:131-135 | text `fromisoformat` accepts is exactly the `isoformat` of the date it reads |
| Calendar.DateTimeRoundTrip | logic.py:125-129 | `datetime.fromisoformat(t.isoformat()) == t` for a real timestamp |
| Calendar.StrptimeRoundTrip | app.py:841 | `strptime(d.strftime('%Y-%m-%d'), '%Y-%m-%d')` gives `d` back |
| Decimal.FormatParse | logic.py:137-141 | `float(f"{amount:.2f}")` gives the amount back |
| Decimal.ParseRejects | logic.py:137-141 | `float("")` is refused, and so is the body `.` with no digits |
| JsonValues.ToFloat | logic.py:63-66 | a JSON number converts to its value; null, lists and objects are refused |
| Text.Strip | logic.py:58 | the result is stripped, no longer than the input, empty exactly for all-space text, and the identity on stripped text |
| Calendar.ParseIsoDate | logic.py:131-135 | `date.fromisoformat` of Python 3.10, which reads `YYYY-MM-DD` only, only ever yields a real calendar date |
| Calendar.ParseIsoDateTime | logic.py:125-129 | `datetime.fromisoformat` only ever yields a real timestamp |
| Calendar.Strptime | app.py:124-128 | `strptime` with a date format only ever yields a real calendar date |
| Calendar.PrevDay | app.py:629-633 | subtracting one day from a real date other than 1 January of year 1 gives the real date just before it |
| Calendar.NotAfterTotal | logic.py:264-265 | dates are totally ordered: of two dates one is on or before the other, and both only when they are equal |
| Decimal.SignedFormat | logic.py:137-141 | the text `f"{x:.2f}"` writes, sign included, reads back as the same amount |
| Text.Lower | app.py:157 | the ASCII case mapping standing for `str.lower`: the length is kept and each character is lowered |
| Text.LowerIsLower | app.py:157 | a lowered text is lower case, and lowering lower-case text changes nothing |
| Text.Upper | logic.py:545 | the ASCII case mapping standing for `str.upper`: the length is kept and each ASCII letter is raised |
| Text.IndexOf | app.py:155-156 | the first position of `:` in the piece, or none exactly when it is absent |
| Text.SplitOn | app.py:151 | `str.split(',')` gives at least one piece and no piece contains the separator |
| Text.SplitJoin | app.py:151 | splitting a separator-joined list of separator-free pieces gives the pieces back |

## Left out

- Storage, the Kivy screens, popups, printing and the refreshing of other screens: the model takes and returns row lists and settings maps instead.
- `compute_net_worth`: it only raises NotImplementedError.
- The persistence, popups and cache handling of `clear_outstanding_debt`.
- The summing loop of `clear_outstanding_debt` is not a separate member. It reads `date_value` with a `date.min` default, so it skips every record, as `get_outstanding_balance_for_cycle` does (Findings).
- `refresh_metrics`, and the other call sites that unpack two values from a function returning one. They are broken against `logic.py` and are not reconciled with it.
- Binary floating point: amounts are integer cents.
  - `float()` of text rounds half up to the cent.
  - Exponents, `inf`, `nan` and underscores are refused, although Python accepts them.
  - `round()` of a float is not replicated.
- `Decimal.ParseDecimal`: only the ASCII digits 0-9 are read. Python's `float()` also accepts other Unicode decimal digits (`float("٣") == 3.0`), so the model refuses an amount cell or a JSON string read by `JsonValues.ToFloat` written in such digits, and `Entries.EntryOf` gives such an amount as None.
- `json.loads` and `json.dumps` on text (RFC 8259) are not modelled. A split cell carries the value `json.loads` made of its text, or None where it refused. In `TransactionsScreen.RowTable.SaveEditedTransactionAsWritten` that conversion is the `loads` parameter.
- `Ledger.DecodeSplit`: `str()` of a JSON number, list or object used as a name is not modelled. Such an item is skipped, where Python keeps e.g. the name `"5"`.
- `Text.Lower`: only ASCII letters change case, where Python also maps other letters. `Text.Strip` uses Python's whitespace set for `str.strip()`.
- `Text.Upper`: only ASCII letters change case, and the length is always kept. Python's `str.upper` maps other letters too and can lengthen text (`"ß".upper() == "SS"`). So the model's `Factories.CleanDevice` turns the device `upı` into `OTHER` where Python gives `UPI`. Likewise the model's `Dashboard.IsCardPayment` misses a description such as `credıt card payment`, which Python upper-cases to a payment.
- `Calendar.ParseIsoDate` follows `date.fromisoformat` of Python 3.10, which accepts `YYYY-MM-DD` only. From Python 3.11 on, it also accepts forms such as `YYYYMMDD` and week dates, which the model refuses.
- `Calendar.ParseIsoDateTime` accepts a subset of `datetime.fromisoformat`: a date, optionally followed by a separator and `HH`, `HH:MM`, `HH:MM:SS`, `.fff` or `.ffffff`. Time zones are not modelled.
- `Calendar.Strptime` reads a four-digit `%Y` and one- or two-digit `%m`/`%d`. Leading blanks inside a field are not modelled. Only the ASCII digits 0-9 are read; Python's `strptime` also accepts other Unicode decimal digits in these fields, so a date written in such digits falls back to today in the model where Python reads it.
- `Dashboard.DecodedRows`: one `freshId` stands for the `uuid4` drawn for each row without an id.
- `now` stands for both `datetime.utcnow()` and the local `datetime.now()` of the edit screen.
- `link_transactions` mutates both records in place. `Factories.LinkTransactions` returns the updated pair, so aliasing between the records and their callers is not modelled.
- `SharedSummary.SummarizeSharedExpenses`: the summary is a map, so the insertion order of its keys is not modelled. Allocation maps keep their order as association lists.
- The participant detail view's formatting, text and sorting by date (`app.py:1661-1689`) are not modelled, only its net total.
- The transaction list's sorting and its month and year selection in `refresh` are not modelled, only `_matches_filters`.
- The payment description, category and sub-type that `clear_outstanding_debt` builds are not modelled.

## Findings

| source | as written | input that shows it | evidently intended | confidence | as-written member | corrected member |
|---|---|---|---|---|---|---|
| app.py:627-630 | from the 19th on, the end is the 18th of the current month | today 20 March 2024: the cycle runs 19 March to 18 March | 19 March to 18 April, as the docstring says | high, not executed | Dashboard.CurrentCycleAsWrittenEndsEarly | Dashboard.CurrentBillingCycle |
| app.py:658-661 | the date is read from `date_value`, which a record does not have, so every record is skipped | one 5.00 card purchase on 20 March, cycle 19 March–18 April: the result is 0 | 5.00 (`Dashboard.CycleChargeCounted`) | high, not executed | Dashboard.OutstandingBalanceForCycleAsWritten | Dashboard.OutstandingBalanceForCycle |
| logic.py:56 | `for item in data` runs outside the `try`, so a JSON number, boolean or null raises TypeError out of `transaction_from_row` | a row whose split cell is the text `5` | no splits, like any other malformed split cell | medium, not executed | Ledger.TransactionFromRowAsWritten | Ledger.TransactionFromRow |
| logic.py:386-394 | each unspecified share but the last is the rounded base share; the last gets `max(remaining − distributed, 0)` | 0.07 over nine unspecified participants: eight shares of 0.01 sum to 0.08 | the shares sum to the remainder | high, not executed | Allocation.OverAllocatedRecord | Allocation.AllocationsTotal |
| app.py:1243 | the participant text is stored as typed in the JSON split cell | edit with participants `alice`: the record reads back with no splits and unshared | the participants parsed as the add dialogs parse them | high, not executed | TransactionsScreen.RowTable.SaveEditedTransactionAsWritten | TransactionsScreen.EditReadsBack |
