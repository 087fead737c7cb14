/** The record factories of logic.py: plain expenses and incomes, the
    linked pair a credit-card purchase becomes, the card payment and the
    debt clearance. A fresh id, the clock reading and a fresh link id are
    parameters (uuid4 and datetime.utcnow in the source). */
module Factories {
  import opened Text
  import opened Options
  import opened Calendar
  import opened Ledger
  import opened Validation

  /** The device a plain factory stores: upper-cased, OTHER when empty
      or not an allowed device. */
  function CleanDevice(device: string): (r: string)
    ensures r in AllowedDevices
    ensures device != "" && Upper(device) in AllowedDevices ==> r == Upper(device)
    ensures device == "" || Upper(device) !in AllowedDevices ==> r == "OTHER"
  {
    var up := if device == "" then "OTHER" else Upper(device);
    if up in AllowedDevices then up else "OTHER"
  }

  /** The device of a credit-card pair: upper-cased, CREDIT_CARD unless
      it names a card device. */
  function CardDevice(device: string): (r: string)
    ensures r in CreditCardDevices
    ensures device != "" && Upper(device) in CreditCardDevices ==> r == Upper(device)
    ensures device == "" || Upper(device) !in CreditCardDevices ==> r == "CREDIT_CARD"
  {
    var up := if device == "" then "OTHER" else Upper(device);
    if up in CreditCardDevices then up else "CREDIT_CARD"
  }

  /** The record both plain factories build, of type txType. */
  function NewTransaction(
    txType: string, amount: int, date: Date, description: string, category: string,
    device: string, location: string, occasion: string, subType: string,
    effectsBalance: bool, sharedFlag: bool, sharedSplits: seq<SharedSplit>,
    sharedNotes: string, id: string, now: DateTime): (tx: Transaction)
    ensures tx.txType == txType && tx.id == id && tx.timestamp == now && tx.date == date
    ensures tx.amount >= 0 && NormalizeAmount(amount) == tx.amount
    ensures tx.device in AllowedDevices && tx.device == CleanDevice(device)
    ensures device == "" || Upper(device) !in AllowedDevices ==> tx.device == "OTHER"
    ensures tx.linkedTxId == ""
    ensures tx.sharedFlag <==> sharedFlag && sharedSplits != []
    ensures tx.sharedFlag ==> tx.sharedSplits != []
    ensures !tx.sharedFlag ==> tx.sharedNotes == ""
    ensures tx.sharedSplits == sharedSplits
    ensures tx.subType == subType && tx.effectsBalance == effectsBalance
    ensures tx.description == description && tx.category == category
    ensures tx.location == location && tx.occasion == occasion
  {
    var shared := sharedFlag && sharedSplits != [];
    Transaction(id, now, txType, subType, NormalizeAmount(amount), date, description, category,
      CleanDevice(device), location, occasion, effectsBalance, "", shared, sharedSplits,
      if shared then sharedNotes else "")
  }

  /** create_expense_transaction; absent splits are passed as []. */
  function CreateExpenseTransaction(
    amount: int, date: Date, description: string, category: string, device: string,
    location: string, occasion: string, subType: string, effectsBalance: bool,
    sharedFlag: bool, sharedSplits: seq<SharedSplit>, sharedNotes: string,
    id: string, now: DateTime): (tx: Transaction)
    ensures tx.txType == Expense && tx.id == id && tx.timestamp == now && tx.date == date
    ensures tx.amount >= 0 && tx.amount == NormalizeAmount(amount)
    ensures tx.device in AllowedDevices && tx.device == CleanDevice(device)
    ensures device == "" || Upper(device) !in AllowedDevices ==> tx.device == "OTHER"
    ensures tx.linkedTxId == ""
    ensures tx.sharedFlag <==> sharedFlag && sharedSplits != []
    ensures tx.sharedSplits == sharedSplits
    ensures tx.sharedNotes == (if tx.sharedFlag then sharedNotes else "")
    ensures tx.subType == subType && tx.effectsBalance == effectsBalance
    ensures tx.description == description && tx.category == category
    ensures tx.location == location && tx.occasion == occasion
  {
    NewTransaction(Expense, amount, date, description, category, device, location, occasion,
      subType, effectsBalance, sharedFlag, sharedSplits, sharedNotes, id, now)
  }

  /** create_income_transaction; absent splits are passed as []. */
  function CreateIncomeTransaction(
    amount: int, date: Date, description: string, category: string, device: string,
    location: string, occasion: string, subType: string, effectsBalance: bool,
    sharedFlag: bool, sharedSplits: seq<SharedSplit>, sharedNotes: string,
    id: string, now: DateTime): (tx: Transaction)
    ensures tx.txType == Income && tx.id == id && tx.timestamp == now && tx.date == date
    ensures tx.amount >= 0 && tx.amount == NormalizeAmount(amount)
    ensures tx.device in AllowedDevices && tx.device == CleanDevice(device)
    ensures device == "" || Upper(device) !in AllowedDevices ==> tx.device == "OTHER"
    ensures tx.linkedTxId == ""
    ensures tx.sharedFlag <==> sharedFlag && sharedSplits != []
    ensures tx.sharedSplits == sharedSplits
    ensures tx.sharedNotes == (if tx.sharedFlag then sharedNotes else "")
    ensures tx.subType == subType && tx.effectsBalance == effectsBalance
    ensures tx.description == description && tx.category == category
    ensures tx.location == location && tx.occasion == occasion
  {
    NewTransaction(Income, amount, date, description, category, device, location, occasion,
      subType, effectsBalance, sharedFlag, sharedSplits, sharedNotes, id, now)
  }

  /** link_transactions: both records take the parent's link id, else
      the child's, else the fresh one. The source updates the two records
      in place; here it returns the updated pair. */
  function LinkTransactions(parent: Transaction, child: Transaction, freshLink: string)
    : (r: (Transaction, Transaction))
    ensures r.0.linkedTxId == r.1.linkedTxId
    ensures r.0 == parent.(linkedTxId := r.0.linkedTxId)
    ensures r.1 == child.(linkedTxId := r.0.linkedTxId)
    ensures parent.linkedTxId != "" ==> r.0.linkedTxId == parent.linkedTxId
    ensures parent.linkedTxId == "" && child.linkedTxId != "" ==> r.0.linkedTxId == child.linkedTxId
    ensures freshLink != "" ==> r.0.linkedTxId != ""
  {
    var link := if parent.linkedTxId != "" then parent.linkedTxId
                else if child.linkedTxId != "" then child.linkedTxId
                else freshLink;
    (parent.(linkedTxId := link), child.(linkedTxId := link))
  }

  /** Linking a linked pair again changes nothing. */
  lemma LinkIdempotent(parent: Transaction, child: Transaction, freshLink: string, otherLink: string)
    requires freshLink != ""
    ensures var p := LinkTransactions(parent, child, freshLink);
      LinkTransactions(p.0, p.1, otherLink) == p
  {
  }

  /** create_credit_card_expense: an expense on the card and the debt it
      creates, as an income, linked together. */
  function CreateCreditCardExpense(
    amount: int, date: Date, description: string, category: string, device: string,
    location: string, occasion: string, expenseSubType: string, debtSubType: string,
    sharedFlag: bool, sharedSplits: seq<SharedSplit>, sharedNotes: string,
    expenseId: string, debtId: string, now: DateTime, freshLink: string)
    : (r: (Transaction, Transaction))
  {
    var normalized := NormalizeAmount(amount);
    var cardDevice := CardDevice(device);
    var expenseTx := CreateExpenseTransaction(normalized, date, description, category, cardDevice,
      location, occasion, expenseSubType, false, sharedFlag, sharedSplits, sharedNotes, expenseId, now);
    var debtTx := CreateIncomeTransaction(normalized, date, "Debt for: " + description, "Debt",
      cardDevice, location, occasion, debtSubType, false, false, [], "", debtId, now);
    LinkTransactions(expenseTx, debtTx, freshLink)
  }

  /** The shape of a credit-card pair: an expense and an income of the
      same normalised amount on a card device, neither touching the
      balance, the income being the debt, and one shared link id. */
  lemma CreditCardPairShape(
    amount: int, date: Date, description: string, category: string, device: string,
    location: string, occasion: string, sharedFlag: bool, sharedSplits: seq<SharedSplit>,
    sharedNotes: string, expenseId: string, debtId: string, now: DateTime, freshLink: string)
    requires freshLink != ""
    ensures var (e, d) := CreateCreditCardExpense(amount, date, description, category, device,
      location, occasion, CreditCardExpenseSubType, CreditCardDebtSubType, sharedFlag,
      sharedSplits, sharedNotes, expenseId, debtId, now, freshLink);
      && e.txType == Expense && e.subType == CreditCardExpenseSubType
      && d.txType == Income && d.subType == CreditCardDebtSubType
      && d.category == "Debt" && d.description == "Debt for: " + description
      && e.amount == d.amount == NormalizeAmount(amount)
      && !e.effectsBalance && !d.effectsBalance
      && e.device == d.device && e.device in CreditCardDevices
      && (Upper(device) !in CreditCardDevices ==> e.device == "CREDIT_CARD")
      && e.linkedTxId == d.linkedTxId == freshLink
      && !d.sharedFlag
      && e.id == expenseId && d.id == debtId && e.date == d.date == date
  {
    CreditCardDevicesAllowed();
    UpperCardDevice(device);
  }

  /** Upper-casing a card device is the identity, so the plain factory
      keeps the device the pair chose. */
  lemma UpperCardDevice(device: string)
    ensures Upper(CardDevice(device)) == CardDevice(device)
    ensures CleanDevice(CardDevice(device)) == CardDevice(device)
  {
    var c := CardDevice(device);
    UpperOfUpper(if device == "" then "OTHER" else Upper(device));
    assert Upper("CREDIT_CARD") == "CREDIT_CARD";
  }

  lemma UpperOfUpper(s: string)
    ensures Upper(Upper(s)) == Upper(s)
  {
  }

  /** create_credit_card_payment: an expense of the payment sub-type that
      lowers the balance. */
  function CreateCreditCardPayment(
    amount: int, date: Date, description: string, category: string, device: string,
    location: string, occasion: string, id: string, now: DateTime): (tx: Transaction)
    ensures tx.txType == Expense && tx.subType == CreditCardPaymentSubType
    ensures tx.effectsBalance && !tx.sharedFlag && tx.amount == NormalizeAmount(amount)
  {
    CreateExpenseTransaction(amount, date, description, category, device, location, occasion,
      CreditCardPaymentSubType, true, false, [], "", id, now)
  }

  /** create_debt_clearance_transaction (description "Debt cleared" and
      device BANK_TRANSFER by default): an expense of the debt sub-type
      that does not touch the balance. */
  function CreateDebtClearanceTransaction(
    amount: int, date: Date, description: string, device: string, id: string, now: DateTime)
    : (tx: Transaction)
    ensures tx.txType == Expense && tx.subType == CreditCardDebtSubType
    ensures !tx.effectsBalance && tx.category == "Debt" && tx.amount == NormalizeAmount(amount)
  {
    CreateExpenseTransaction(amount, date, description, "Debt", device, "", "",
      CreditCardDebtSubType, false, false, [], "", id, now)
  }

  /** A plain factory's record passes validation exactly when the amount
      is not zero (for a real date and a known type). */
  lemma FactoryOutputValid(
    txType: string, amount: int, date: Date, description: string, category: string,
    device: string, location: string, occasion: string, subType: string,
    effectsBalance: bool, sharedFlag: bool, sharedSplits: seq<SharedSplit>,
    sharedNotes: string, id: string, now: DateTime)
    requires txType == Expense || txType == Income
    requires ValidDate(date)
    ensures var tx := NewTransaction(txType, amount, date, description, category,
      device, location, occasion, subType, effectsBalance, sharedFlag, sharedSplits,
      sharedNotes, id, now);
      ValidateTransaction(tx).0 <==> amount != 0
  {
    var tx := NewTransaction(txType, amount, date, description, category,
      device, location, occasion, subType, effectsBalance, sharedFlag, sharedSplits,
      sharedNotes, id, now);
    ValidIff(tx);
  }
}
