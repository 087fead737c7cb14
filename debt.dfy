/** compute_outstanding_debt (logic.py): the credit-card debt since the
    latest reset marker. */
module Debts {
  import opened Calendar
  import opened Ledger
  import opened Factories

  /** The description that marks a debt reset. */
  const ResetMarker := "CREDIT CARD DEBT RESET"

  predicate IsReset(tx: Transaction) {
    tx.description == ResetMarker
  }

  /** The dates of the reset markers, in order. */
  function ResetDates(txs: seq<Transaction>): (r: seq<Date>)
    ensures |r| <= |txs|
  {
    if txs == [] then []
    else
      var last := txs[|txs| - 1];
      ResetDates(txs[..|txs| - 1]) + (if IsReset(last) then [last.date] else [])
  }

  /** max() of a non-empty list of dates. */
  function LatestDate(ds: seq<Date>): (r: Date)
    requires ds != []
    ensures r in ds
    ensures forall k :: 0 <= k < |ds| ==> NotAfter(ds[k], r)
  {
    if |ds| == 1 then ds[0]
    else
      var m := LatestDate(ds[..|ds| - 1]);
      assert forall k :: 0 <= k < |ds| - 1 ==> ds[..|ds| - 1][k] == ds[k];
      NotAfterTotal(m, ds[|ds| - 1]);
      if NotAfter(m, ds[|ds| - 1]) then ds[|ds| - 1] else m
  }

  /** The records dated on or after d, in order. */
  function OnOrAfter(txs: seq<Transaction>, d: Date): (r: seq<Transaction>)
    ensures |r| <= |txs|
    ensures forall k :: 0 <= k < |r| ==> NotAfter(d, r[k].date)
  {
    if txs == [] then []
    else
      var last := txs[|txs| - 1];
      OnOrAfter(txs[..|txs| - 1], d) + (if NotAfter(d, last.date) then [last] else [])
  }

  /** The records the debt is counted over: all of them, or those dated
      on or after the latest reset marker. */
  function DebtWindow(txs: seq<Transaction>): seq<Transaction> {
    var resets := ResetDates(txs);
    if resets == [] then txs else OnOrAfter(txs, LatestDate(resets))
  }

  /** The running debt and the ids already counted. */
  datatype DebtState = DebtState(total: int, processed: set<string>)

  /** One step of the debt loop: a reset marker zeroes the debt; a
      record whose id was counted is skipped; the debt half of a card
      purchase (an income of the debt sub-type) adds; a card payment (an
      expense of the payment sub-type) subtracts; an expense on a card
      device is only marked as counted. */
  function DebtStep(st: DebtState, tx: Transaction): DebtState {
    if IsReset(tx) then DebtState(0, st.processed)
    else if tx.id in st.processed then st
    else if tx.subType == CreditCardDebtSubType then
      (if tx.txType == Income then DebtState(st.total + tx.amount, st.processed + {tx.id}) else st)
    else if tx.subType == CreditCardPaymentSubType && tx.txType == Expense then
      DebtState(st.total - tx.amount, st.processed + {tx.id})
    else if tx.device in CreditCardDevices && tx.txType == Expense then
      DebtState(st.total, st.processed + {tx.id})
    else st
  }

  function DebtFold(txs: seq<Transaction>): DebtState {
    if txs == [] then DebtState(0, {}) else DebtStep(DebtFold(txs[..|txs| - 1]), txs[|txs| - 1])
  }

  /** The outstanding debt: the fold over the window. */
  function OutstandingDebt(txs: seq<Transaction>): int {
    DebtFold(DebtWindow(txs)).total
  }

  /** compute_outstanding_debt: the reset dates are collected, the
      records cut to those on or after the latest, and the debt folded
      over what is left. */
  method ComputeOutstandingDebt(transactions: seq<Transaction>) returns (debt: int)
    ensures debt == OutstandingDebt(transactions)
  {
    var resetDates := CollectResetDates(transactions);
    var txs := transactions;
    if resetDates != [] {
      var lastReset := LatestOf(resetDates);
      txs := KeepOnOrAfter(transactions, lastReset);
    }
    debt := FoldDebt(txs);
  }

  /** The first loop: the dates of the reset markers. */
  method CollectResetDates(transactions: seq<Transaction>) returns (resetDates: seq<Date>)
    ensures resetDates == ResetDates(transactions)
  {
    resetDates := [];
    var i := 0;
    while i < |transactions|
      invariant 0 <= i <= |transactions|
      invariant resetDates == ResetDates(transactions[..i])
    {
      assert transactions[..i + 1][..i] == transactions[..i];
      if transactions[i].description == ResetMarker {
        resetDates := resetDates + [transactions[i].date];
      }
      i := i + 1;
    }
    assert transactions[..i] == transactions;
  }

  /** The second loop: the records dated on or after the latest reset. */
  method KeepOnOrAfter(transactions: seq<Transaction>, lastReset: Date) returns (txs: seq<Transaction>)
    ensures txs == OnOrAfter(transactions, lastReset)
  {
    txs := [];
    var i := 0;
    while i < |transactions|
      invariant 0 <= i <= |transactions|
      invariant txs == OnOrAfter(transactions[..i], lastReset)
    {
      assert transactions[..i + 1][..i] == transactions[..i];
      if NotAfter(lastReset, transactions[i].date) {
        txs := txs + [transactions[i]];
      }
      i := i + 1;
    }
    assert transactions[..i] == transactions;
  }

  /** The third loop: the debt over the records kept. */
  method FoldDebt(txs: seq<Transaction>) returns (debt: int)
    ensures debt == DebtFold(txs).total
  {
    var processedIds: set<string> := {};
    var debtTotal := 0;
    var i := 0;
    while i < |txs|
      invariant 0 <= i <= |txs|
      invariant DebtState(debtTotal, processedIds) == DebtFold(txs[..i])
    {
      var tx := txs[i];
      assert txs[..i + 1][..i] == txs[..i];
      if tx.description == ResetMarker {
        debtTotal := 0;
      } else if tx.id in processedIds {
      } else if tx.subType == CreditCardDebtSubType {
        if tx.txType == Income {
          debtTotal := debtTotal + tx.amount;
          processedIds := processedIds + {tx.id};
        }
      } else if tx.subType == CreditCardPaymentSubType && tx.txType == Expense {
        debtTotal := debtTotal - tx.amount;
        processedIds := processedIds + {tx.id};
      } else if tx.device in CreditCardDevices && tx.txType == Expense {
        processedIds := processedIds + {tx.id};
      }
      i := i + 1;
    }
    assert txs[..i] == txs;
    debt := debtTotal;
  }

  /** max(dates), by a loop. */
  method LatestOf(ds: seq<Date>) returns (latest: Date)
    requires ds != []
    ensures latest == LatestDate(ds)
  {
    latest := ds[0];
    var i := 1;
    assert ds[..1] == [ds[0]];
    while i < |ds|
      invariant 1 <= i <= |ds|
      invariant latest == LatestDate(ds[..i])
    {
      assert ds[..i + 1][..i] == ds[..i];
      if NotAfter(latest, ds[i]) {
        latest := ds[i];
      }
      i := i + 1;
    }
    assert ds[..i] == ds;
  }

  // ---- properties ----

  function Ids(txs: seq<Transaction>): set<string> {
    set k | 0 <= k < |txs| :: txs[k].id
  }

  /** Only ids of the records folded over are ever marked counted. */
  lemma {:induction false} ProcessedAreIds(txs: seq<Transaction>)
    ensures DebtFold(txs).processed <= Ids(txs)
  {
    if txs != [] {
      var front := txs[..|txs| - 1];
      ProcessedAreIds(front);
      assert forall k :: 0 <= k < |front| ==> front[k] == txs[k];
      assert Ids(front) <= Ids(txs);
      assert txs[|txs| - 1].id in Ids(txs);
    }
  }

  lemma DebtSnoc(txs: seq<Transaction>, tx: Transaction)
    ensures DebtFold(txs + [tx]) == DebtStep(DebtFold(txs), tx)
    ensures ResetDates(txs + [tx]) == ResetDates(txs) + (if IsReset(tx) then [tx.date] else [])
  {
    assert (txs + [tx])[..|txs|] == txs;
  }

  /** Without reset markers the window is every record. */
  lemma NoResetWindow(txs: seq<Transaction>)
    requires ResetDates(txs) == []
    ensures OutstandingDebt(txs) == DebtFold(txs).total
  {
  }

  lemma NotMarker(description: string)
    ensures "Debt for: " + description != ResetMarker
  {
    assert ("Debt for: " + description)[0] == 'D';
  }

  /** An expense on a card followed by the income of its debt adds the
      debt's amount once, when its id is fresh. */
  lemma {:induction false} DebtPairAdds(txs: seq<Transaction>, e: Transaction, d: Transaction)
    requires ResetDates(txs) == [] && !IsReset(e) && !IsReset(d)
    requires e.txType == Expense && e.subType == CreditCardExpenseSubType
    requires d.txType == Income && d.subType == CreditCardDebtSubType
    requires d.id != e.id && d.id !in Ids(txs)
    ensures OutstandingDebt(txs + [e, d]) == OutstandingDebt(txs) + d.amount
  {
    assert txs + [e, d] == (txs + [e]) + [d];
    DebtSnoc(txs, e);
    DebtSnoc(txs + [e], d);
    ProcessedAreIds(txs);
    NoResetWindow(txs);
    NoResetWindow(txs + [e, d]);
  }

  /** Recording a credit-card purchase of a fresh debt id raises the debt
      by its normalised amount, when no reset marker is involved. */
  lemma CreditCardPairAddsDebt(
    txs: seq<Transaction>,
    amount: int, date: Date, description: string, category: string, device: string,
    location: string, occasion: string, sharedFlag: bool, sharedSplits: seq<SharedSplit>,
    sharedNotes: string, expenseId: string, debtId: string, now: DateTime, freshLink: string)
    requires ResetDates(txs) == [] && description != ResetMarker
    requires debtId != expenseId && debtId !in Ids(txs)
    ensures var (e, d) := CreateCreditCardExpense(amount, date, description, category, device,
      location, occasion, CreditCardExpenseSubType, CreditCardDebtSubType, sharedFlag,
      sharedSplits, sharedNotes, expenseId, debtId, now, freshLink);
      OutstandingDebt(txs + [e, d]) == OutstandingDebt(txs) + NormalizeAmount(amount)
  {
    var (e, d) := CreateCreditCardExpense(amount, date, description, category, device,
      location, occasion, CreditCardExpenseSubType, CreditCardDebtSubType, sharedFlag,
      sharedSplits, sharedNotes, expenseId, debtId, now, freshLink);
    NotMarker(description);
    DebtPairAdds(txs, e, d);
  }

  /** A credit-card payment with a fresh id lowers the debt by its
      amount, when no reset marker is involved. */
  lemma PaymentLowersDebt(
    txs: seq<Transaction>, amount: int, date: Date, description: string, category: string,
    device: string, location: string, occasion: string, id: string, now: DateTime)
    requires ResetDates(txs) == [] && description != ResetMarker && id !in Ids(txs)
    ensures var p := CreateCreditCardPayment(amount, date, description, category, device,
      location, occasion, id, now);
      OutstandingDebt(txs + [p]) == OutstandingDebt(txs) - NormalizeAmount(amount)
  {
    var p := CreateCreditCardPayment(amount, date, description, category, device,
      location, occasion, id, now);
    DebtSnoc(txs, p);
    ProcessedAreIds(txs);
    NoResetWindow(txs);
    NoResetWindow(txs + [p]);
  }

  /** A debt clearance does not change the debt: it is an expense of the
      debt sub-type, and only incomes of that sub-type count. */
  lemma ClearanceKeepsDebt(
    txs: seq<Transaction>, amount: int, date: Date, description: string, device: string,
    id: string, now: DateTime)
    requires ResetDates(txs) == [] && description != ResetMarker
    ensures var c := CreateDebtClearanceTransaction(amount, date, description, device, id, now);
      OutstandingDebt(txs + [c]) == OutstandingDebt(txs)
  {
    var c := CreateDebtClearanceTransaction(amount, date, description, device, id, now);
    DebtSnoc(txs, c);
    NoResetWindow(txs);
    NoResetWindow(txs + [c]);
  }

  /** The debt has no floor: a payment alone makes it negative. */
  lemma DebtCanBeNegative(now: DateTime)
    ensures var p := CreateCreditCardPayment(500, Date(2024, 1, 5), "Card bill", "Bills", "UPI",
      "", "", "p1", now);
      OutstandingDebt([p]) == -500
  {
    var p := CreateCreditCardPayment(500, Date(2024, 1, 5), "Card bill", "Bills", "UPI",
      "", "", "p1", now);
    DebtSnoc([], p);
    assert [] + [p] == [p];
    NoResetWindow([p]);
  }

  lemma {:induction false} ResetDatesBounded(txs: seq<Transaction>, bound: Date)
    requires forall k :: 0 <= k < |txs| && IsReset(txs[k]) ==> NotAfter(txs[k].date, bound)
    ensures forall k :: 0 <= k < |ResetDates(txs)| ==> NotAfter(ResetDates(txs)[k], bound)
  {
    if txs != [] {
      var front := txs[..|txs| - 1];
      assert forall k :: 0 <= k < |front| ==> front[k] == txs[k];
      ResetDatesBounded(front, bound);
    }
  }

  /** A reset marker dated no earlier than every other marker, recorded
      last, brings the debt to zero. */
  lemma ResetZeroesDebt(txs: seq<Transaction>, reset: Transaction)
    requires IsReset(reset)
    requires forall k :: 0 <= k < |txs| && IsReset(txs[k]) ==> NotAfter(txs[k].date, reset.date)
    ensures OutstandingDebt(txs + [reset]) == 0
  {
    var all := txs + [reset];
    DebtSnoc(txs, reset);
    ResetDatesBounded(txs, reset.date);
    var resets := ResetDates(all);
    var latest := LatestDate(resets);
    assert resets[|resets| - 1] == reset.date;
    assert latest == reset.date by {
      var j :| 0 <= j < |resets| && resets[j] == latest;
      if j < |resets| - 1 {
        assert resets[j] == ResetDates(txs)[j];
      }
      NotAfterTotal(latest, reset.date);
    }
    assert all[..|all| - 1] == txs;
    assert OnOrAfter(all, latest) == OnOrAfter(txs, latest) + [reset];
    DebtSnoc(OnOrAfter(txs, latest), reset);
  }
}
