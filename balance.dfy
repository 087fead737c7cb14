/** compute_balance and compute_cash_balance (logic.py): the running
    balance over the records that touch it. */
module Balances {
  import opened Calendar
  import opened Ledger
  import opened Factories

  /** A record moves the balance when it says so and is not one half of a
      credit-card purchase. */
  predicate MovesBalance(tx: Transaction) {
    tx.effectsBalance && tx.subType != CreditCardExpenseSubType && tx.subType != CreditCardDebtSubType
  }

  /** What a moving record does to the balance: income adds, expense
      subtracts, any other type nothing. */
  function SignedAmount(tx: Transaction): int {
    if tx.txType == Income then tx.amount
    else if tx.txType == Expense then -tx.amount
    else 0
  }

  function BalanceStep(balance: int, tx: Transaction): int {
    if MovesBalance(tx) then balance + SignedAmount(tx) else balance
  }

  /** The balance after the records, from the initial balance, record by
      record. */
  function BalanceOf(txs: seq<Transaction>, initial: int): int {
    if txs == [] then initial else BalanceStep(BalanceOf(txs[..|txs| - 1], initial), txs[|txs| - 1])
  }

  /** compute_balance. */
  method ComputeBalance(txs: seq<Transaction>, initial: int) returns (balance: int)
    ensures balance == BalanceOf(txs, initial)
  {
    balance := initial;
    var i := 0;
    while i < |txs|
      invariant 0 <= i <= |txs|
      invariant balance == BalanceOf(txs[..i], initial)
    {
      var tx := txs[i];
      assert txs[..i + 1][..i] == txs[..i];
      if !tx.effectsBalance {
      } else if tx.subType == CreditCardExpenseSubType || tx.subType == CreditCardDebtSubType {
      } else if tx.txType == Income {
        balance := balance + tx.amount;
      } else if tx.txType == Expense {
        balance := balance - tx.amount;
      }
      i := i + 1;
    }
    assert txs[..i] == txs;
  }

  /** The total amount of the moving records of one type. */
  function MovingTotal(txs: seq<Transaction>, txType: string): int {
    if txs == [] then 0
    else
      var last := txs[|txs| - 1];
      MovingTotal(txs[..|txs| - 1], txType)
      + (if MovesBalance(last) && last.txType == txType then last.amount else 0)
  }

  /** The balance is the initial balance plus the moving incomes minus
      the moving expenses. */
  lemma {:induction false} BalanceIsIncomeMinusExpense(txs: seq<Transaction>, initial: int)
    ensures BalanceOf(txs, initial) == initial + MovingTotal(txs, Income) - MovingTotal(txs, Expense)
  {
    if txs != [] {
      BalanceIsIncomeMinusExpense(txs[..|txs| - 1], initial);
    }
  }

  /** Shifting the initial balance shifts the result by as much. */
  lemma {:induction false} BalanceShift(txs: seq<Transaction>, initial: int, delta: int)
    ensures BalanceOf(txs, initial + delta) == BalanceOf(txs, initial) + delta
  {
    if txs != [] {
      BalanceShift(txs[..|txs| - 1], initial, delta);
    }
  }

  /** Running over two lists is running over the second from the
      balance the first leaves. */
  lemma {:induction false} BalanceAppend(a: seq<Transaction>, b: seq<Transaction>, initial: int)
    ensures BalanceOf(a + b, initial) == BalanceOf(b, BalanceOf(a, initial))
  {
    if b == [] {
      assert a + b == a;
    } else {
      assert (a + b)[..|a + b| - 1] == a + b[..|b| - 1];
      BalanceAppend(a, b[..|b| - 1], initial);
    }
  }

  lemma BalanceSnoc(txs: seq<Transaction>, tx: Transaction, initial: int)
    ensures BalanceOf(txs + [tx], initial) == BalanceStep(BalanceOf(txs, initial), tx)
  {
    assert (txs + [tx])[..|txs|] == txs;
  }

  /** Recording a credit-card purchase leaves the balance where it was. */
  lemma CreditCardPairKeepsBalance(
    txs: seq<Transaction>, initial: int,
    amount: int, date: Date, description: string, category: string, device: string,
    location: string, occasion: string, expenseSubType: string, debtSubType: string,
    sharedFlag: bool, sharedSplits: seq<SharedSplit>, sharedNotes: string,
    expenseId: string, debtId: string, now: DateTime, freshLink: string)
    ensures var (e, d) := CreateCreditCardExpense(amount, date, description, category, device,
      location, occasion, expenseSubType, debtSubType, sharedFlag, sharedSplits, sharedNotes,
      expenseId, debtId, now, freshLink);
      BalanceOf(txs + [e, d], initial) == BalanceOf(txs, initial)
      && CashBalanceOf(txs + [e, d], initial) == CashBalanceOf(txs, initial)
  {
    var (e, d) := CreateCreditCardExpense(amount, date, description, category, device,
      location, occasion, expenseSubType, debtSubType, sharedFlag, sharedSplits, sharedNotes,
      expenseId, debtId, now, freshLink);
    assert txs + [e, d] == (txs + [e]) + [d];
    BalanceSnoc(txs, e, initial);
    BalanceSnoc(txs + [e], d, initial);
    CashSnoc(txs, e, initial);
    CashSnoc(txs + [e], d, initial);
  }

  /** A credit-card payment lowers the balance by its amount. */
  lemma PaymentLowersBalance(
    txs: seq<Transaction>, initial: int, amount: int, date: Date, description: string,
    category: string, device: string, location: string, occasion: string,
    id: string, now: DateTime)
    ensures var p := CreateCreditCardPayment(amount, date, description, category, device,
      location, occasion, id, now);
      BalanceOf(txs + [p], initial) == BalanceOf(txs, initial) - NormalizeAmount(amount)
  {
    var p := CreateCreditCardPayment(amount, date, description, category, device,
      location, occasion, id, now);
    BalanceSnoc(txs, p, initial);
  }

  /** A debt clearance leaves the balance where it was. */
  lemma ClearanceKeepsBalance(
    txs: seq<Transaction>, initial: int, amount: int, date: Date, description: string,
    device: string, id: string, now: DateTime)
    ensures var c := CreateDebtClearanceTransaction(amount, date, description, device, id, now);
      BalanceOf(txs + [c], initial) == BalanceOf(txs, initial)
  {
    var c := CreateDebtClearanceTransaction(amount, date, description, device, id, now);
    BalanceSnoc(txs, c, initial);
  }

  // ---- cash ----

  function CashStep(balance: int, tx: Transaction): int {
    if MovesBalance(tx) && tx.device == "CASH" then balance + SignedAmount(tx) else balance
  }

  /** The cash balance after the records. */
  function CashBalanceOf(txs: seq<Transaction>, initial: int): int {
    if txs == [] then initial else CashStep(CashBalanceOf(txs[..|txs| - 1], initial), txs[|txs| - 1])
  }

  lemma CashSnoc(txs: seq<Transaction>, tx: Transaction, initial: int)
    ensures CashBalanceOf(txs + [tx], initial) == CashStep(CashBalanceOf(txs, initial), tx)
  {
    assert (txs + [tx])[..|txs|] == txs;
  }

  /** compute_cash_balance. */
  method ComputeCashBalance(txs: seq<Transaction>, initial: int) returns (balance: int)
    ensures balance == CashBalanceOf(txs, initial)
  {
    balance := initial;
    var i := 0;
    while i < |txs|
      invariant 0 <= i <= |txs|
      invariant balance == CashBalanceOf(txs[..i], initial)
    {
      var tx := txs[i];
      assert txs[..i + 1][..i] == txs[..i];
      if !tx.effectsBalance {
      } else if tx.subType == CreditCardExpenseSubType || tx.subType == CreditCardDebtSubType {
      } else if tx.device == "CASH" {
        if tx.txType == Income {
          balance := balance + tx.amount;
        } else if tx.txType == Expense {
          balance := balance - tx.amount;
        }
      }
      i := i + 1;
    }
    assert txs[..i] == txs;
  }

  /** The records paid in cash, in order. */
  function CashOnly(txs: seq<Transaction>): (r: seq<Transaction>)
    ensures forall k :: 0 <= k < |r| ==> r[k].device == "CASH"
  {
    if txs == [] then []
    else CashOnly(txs[..|txs| - 1]) + (if txs[|txs| - 1].device == "CASH" then [txs[|txs| - 1]] else [])
  }

  /** The cash balance is the balance over the cash records alone. */
  lemma {:induction false} CashIsBalanceOfCash(txs: seq<Transaction>, initial: int)
    ensures CashBalanceOf(txs, initial) == BalanceOf(CashOnly(txs), initial)
  {
    if txs != [] {
      var front := txs[..|txs| - 1];
      var last := txs[|txs| - 1];
      CashIsBalanceOfCash(front, initial);
      if last.device == "CASH" {
        BalanceSnoc(CashOnly(front), last, initial);
      } else {
        assert CashOnly(txs) == CashOnly(front) + [];
        assert CashOnly(txs) == CashOnly(front);
        assert CashBalanceOf(txs, initial) == CashBalanceOf(front, initial);
      }
    }
  }
}
