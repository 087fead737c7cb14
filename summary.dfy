/** compute_savings_totals and summarize_by_category (logic.py): per-label
    savings totals and per-category expense totals. The settings file the
    source reads is a parameter: its keys and the JSON values they hold. */
module Summaries {
  import opened Seqs
  import opened Text
  import opened Options
  import opened JsonValues
  import opened Ledger

  // ---- savings ----

  /** Lower-cased category names of savings deposits, with their labels. */
  const SavingsCategoryLabels: map<string, string> :=
    map["savings fd" := "Savings FD", "savings rd" := "Savings RD",
        "savings gold" := "Savings Gold", "savings" := "Savings"]

  /** The labels, in the order the totals are built. */
  const SavingsLabels: seq<string> := ["Savings FD", "Savings RD", "Savings Gold", "Savings"]

  /** The settings key of each label's opening balance. */
  const InitialSettingKeys: map<string, string> :=
    map["Savings" := "initial_savings_balance", "Savings FD" := "initial_savings_fd_balance",
        "Savings RD" := "initial_savings_rd_balance", "Savings Gold" := "initial_savings_gold_balance"]

  /** The category name of a savings withdrawal. */
  const WithdrawCategory := "taken from savings"

  predicate IsSavingsLabel(lbl: string) {
    lbl in SavingsLabels
  }

  /** float(settings.get(key, 0.0)), 0 where float() raises. */
  function SettingCents(settings: map<string, Json>, key: string): int {
    if key in settings then ToFloat(settings[key]).GetOr(0) else 0
  }

  /** The opening balance of a savings label. */
  function InitialSavings(settings: map<string, Json>, lbl: string): int
    requires IsSavingsLabel(lbl)
  {
    SettingCents(settings, InitialSettingKeys[lbl])
  }

  /** A category as the savings rules compare it: stripped, lower-cased. */
  function CategoryKey(tx: Transaction): string {
    Lower(Strip(tx.category))
  }

  /** The expenses paid into a label's savings, in total. */
  function Deposited(txs: seq<Transaction>, lbl: string): int {
    if txs == [] then 0
    else
      var tx := txs[|txs| - 1];
      var key := CategoryKey(tx);
      Deposited(txs[..|txs| - 1], lbl)
      + (if tx.txType == Expense && key in SavingsCategoryLabels && SavingsCategoryLabels[key] == lbl
         then tx.amount else 0)
  }

  predicate IsWithdrawal(tx: Transaction) {
    tx.txType == Income && (CategoryKey(tx) == WithdrawCategory || tx.device == "SAVINGS_WITHDRAW")
  }

  /** The incomes taken out of savings, in total. */
  function Withdrawn(txs: seq<Transaction>): int {
    if txs == [] then 0
    else Withdrawn(txs[..|txs| - 1]) + (if IsWithdrawal(txs[|txs| - 1]) then txs[|txs| - 1].amount else 0)
  }

  /** What a label holds after the records: the opening balance plus the
      deposits, less the withdrawals for the plain "Savings" label. */
  function SavingsTotal(settings: map<string, Json>, txs: seq<Transaction>, lbl: string): int
    requires IsSavingsLabel(lbl)
  {
    InitialSavings(settings, lbl) + Deposited(txs, lbl) - (if lbl == "Savings" then Withdrawn(txs) else 0)
  }

  /** What one record adds to a label. */
  function SavingsDelta(tx: Transaction, lbl: string): int {
    var key := CategoryKey(tx);
    (if tx.txType == Expense && key in SavingsCategoryLabels && SavingsCategoryLabels[key] == lbl
     then tx.amount else 0)
    - (if lbl == "Savings" && IsWithdrawal(tx) then tx.amount else 0)
  }

  lemma SavingsSnoc(settings: map<string, Json>, txs: seq<Transaction>, tx: Transaction, lbl: string)
    requires IsSavingsLabel(lbl)
    ensures SavingsTotal(settings, txs + [tx], lbl) == SavingsTotal(settings, txs, lbl) + SavingsDelta(tx, lbl)
  {
    assert (txs + [tx])[..|txs|] == txs;
  }

  lemma DepositDelta(tx: Transaction, lbl: string)
    requires tx.txType == Expense && CategoryKey(tx) in SavingsCategoryLabels
    ensures SavingsDelta(tx, lbl) == if SavingsCategoryLabels[CategoryKey(tx)] == lbl then tx.amount else 0
  {
  }

  lemma WithdrawDelta(tx: Transaction, lbl: string)
    requires IsWithdrawal(tx)
    ensures SavingsDelta(tx, lbl) == if lbl == "Savings" then -tx.amount else 0
  {
  }

  lemma NoDelta(tx: Transaction, lbl: string)
    requires tx.txType == Expense ==> CategoryKey(tx) !in SavingsCategoryLabels
    requires !IsWithdrawal(tx)
    ensures SavingsDelta(tx, lbl) == 0
  {
  }

  /** compute_savings_totals: one total per label, each the opening
      balance plus deposits, withdrawals taken from "Savings". */
  method ComputeSavingsTotals(transactions: seq<Transaction>, settings: map<string, Json>)
    returns (totals: map<string, int>)
    ensures forall lbl :: lbl in totals <==> IsSavingsLabel(lbl)
    ensures forall lbl :: lbl in totals ==> totals[lbl] == SavingsTotal(settings, transactions, lbl)
  {
    totals := OpeningSavings(settings);
    var i := 0;
    assert transactions[..0] == [];
    while i < |transactions|
      invariant 0 <= i <= |transactions|
      invariant SavingsTotalsOf(totals, settings, transactions[..i])
    {
      PrefixSnoc(transactions, i);
      totals := AdvanceSavings(settings, transactions[..i], transactions[i], totals);
      i := i + 1;
    }
    assert transactions[..i] == transactions;
  }

  /** totals holds, for every savings label and nothing else, the total
      of txs under the given opening settings. */
  ghost predicate SavingsTotalsOf(totals: map<string, int>, settings: map<string, Json>, txs: seq<Transaction>) {
    && (forall lbl :: lbl in totals <==> IsSavingsLabel(lbl))
    && (forall lbl :: lbl in totals ==> totals[lbl] == SavingsTotal(settings, txs, lbl))
  }

  /** One step of the savings fold: the totals of txs become those of
      txs followed by tx. */
  method AdvanceSavings(settings: map<string, Json>, txs: seq<Transaction>, tx: Transaction,
                        prev: map<string, int>) returns (totals: map<string, int>)
    requires SavingsTotalsOf(prev, settings, txs)
    ensures SavingsTotalsOf(totals, settings, txs + [tx])
  {
    forall lbl | IsSavingsLabel(lbl)
      ensures SavingsTotal(settings, txs + [tx], lbl) == SavingsTotal(settings, txs, lbl) + SavingsDelta(tx, lbl)
    {
      SavingsSnoc(settings, txs, tx, lbl);
    }
    totals := AddSavingsRecord(prev, tx);
  }

  /** Every savings category maps to a savings label. */
  lemma CategoryLabelsAreLabels(key: string)
    requires key in SavingsCategoryLabels
    ensures IsSavingsLabel(SavingsCategoryLabels[key])
  {
    assert SavingsCategoryLabels["savings fd"] == SavingsLabels[0];
    assert SavingsCategoryLabels["savings rd"] == SavingsLabels[1];
    assert SavingsCategoryLabels["savings gold"] == SavingsLabels[2];
    assert SavingsCategoryLabels["savings"] == SavingsLabels[3];
  }

  lemma SavingsIsLabel()
    ensures IsSavingsLabel("Savings")
  {
    assert SavingsLabels[3] == "Savings";
  }

  /** One pass of the savings loop: a deposit adds to its label, a
      withdrawal takes from "Savings". */
  method AddSavingsRecord(prev: map<string, int>, tx: Transaction) returns (totals: map<string, int>)
    requires forall lbl :: lbl in prev <==> IsSavingsLabel(lbl)
    ensures forall lbl :: lbl in totals <==> IsSavingsLabel(lbl)
    ensures forall lbl :: lbl in totals ==> totals[lbl] == prev[lbl] + SavingsDelta(tx, lbl)
  {
    totals := prev;
    var categoryKey := CategoryKey(tx);
    if tx.txType == Expense && categoryKey in SavingsCategoryLabels {
      var lbl := SavingsCategoryLabels[categoryKey];
      CategoryLabelsAreLabels(categoryKey);
      totals := totals[lbl := totals[lbl] + tx.amount];
      forall l | IsSavingsLabel(l) ensures totals[l] == prev[l] + SavingsDelta(tx, l) {
        DepositDelta(tx, l);
      }
    } else if IsWithdrawal(tx) {
      SavingsIsLabel();
      totals := totals["Savings" := totals["Savings"] - tx.amount];
      forall l | IsSavingsLabel(l) ensures totals[l] == prev[l] + SavingsDelta(tx, l) {
        WithdrawDelta(tx, l);
      }
    } else {
      forall l | IsSavingsLabel(l) ensures SavingsDelta(tx, l) == 0 {
        NoDelta(tx, l);
      }
    }
  }

  /** The totals before any record: each label at zero plus its opening
      balance from the settings. */
  method OpeningSavings(settings: map<string, Json>) returns (totals: map<string, int>)
    ensures forall lbl :: lbl in totals <==> IsSavingsLabel(lbl)
    ensures forall lbl :: lbl in totals ==> totals[lbl] == InitialSavings(settings, lbl)
  {
    totals := map lbl | lbl in SavingsCategoryLabels.Values :: 0;
    LabelValues();
    LabelsDistinct();
    var j := 0;
    while j < |SavingsLabels|
      invariant 0 <= j <= |SavingsLabels|
      invariant forall lbl :: lbl in totals <==> IsSavingsLabel(lbl)
      invariant forall k :: 0 <= k < |SavingsLabels| ==>
        totals[SavingsLabels[k]] == if k < j then InitialSavings(settings, SavingsLabels[k]) else 0
    {
      var lbl := SavingsLabels[j];
      totals := totals[lbl := totals[lbl] + SettingCents(settings, InitialSettingKeys[lbl])];
      j := j + 1;
    }
  }

  /** The savings categories map onto exactly the savings labels. */
  lemma LabelValues()
    ensures SavingsCategoryLabels.Values == set k | 0 <= k < |SavingsLabels| :: SavingsLabels[k]
  {
    assert SavingsCategoryLabels["savings fd"] == SavingsLabels[0];
    assert SavingsCategoryLabels["savings rd"] == SavingsLabels[1];
    assert SavingsCategoryLabels["savings gold"] == SavingsLabels[2];
    assert SavingsCategoryLabels["savings"] == SavingsLabels[3];
  }

  lemma LabelsDistinct()
    ensures forall a, b :: 0 <= a < b < |SavingsLabels| ==> SavingsLabels[a] != SavingsLabels[b]
  {
  }

  /** An expense filed under a savings category moves its amount into
      that label and leaves the others alone. */
  lemma DepositMovesOneLabel(txs: seq<Transaction>, tx: Transaction, settings: map<string, Json>, lbl: string)
    requires IsSavingsLabel(lbl)
    requires tx.txType == Expense && CategoryKey(tx) in SavingsCategoryLabels
    ensures SavingsTotal(settings, txs + [tx], lbl) ==
      SavingsTotal(settings, txs, lbl) + (if SavingsCategoryLabels[CategoryKey(tx)] == lbl then tx.amount else 0)
  {
    assert (txs + [tx])[..|txs|] == txs;
  }

  // ---- categories ----

  /** The category an expense is summed under. */
  function CategoryName(tx: Transaction): string {
    if tx.category == "" then "Uncategorized" else tx.category
  }

  /** The total of the expenses under a category. */
  function CategoryTotal(txs: seq<Transaction>, category: string): int {
    if txs == [] then 0
    else
      var tx := txs[|txs| - 1];
      CategoryTotal(txs[..|txs| - 1], category)
      + (if tx.txType == Expense && CategoryName(tx) == category then tx.amount else 0)
  }

  /** Some expense is filed under the category. */
  predicate HasExpenseIn(txs: seq<Transaction>, category: string) {
    exists k :: 0 <= k < |txs| && txs[k].txType == Expense && CategoryName(txs[k]) == category
  }

  lemma CategorySnoc(txs: seq<Transaction>, tx: Transaction, category: string)
    ensures CategoryTotal(txs + [tx], category) ==
      CategoryTotal(txs, category) + (if tx.txType == Expense && CategoryName(tx) == category then tx.amount else 0)
    ensures HasExpenseIn(txs + [tx], category) <==>
      HasExpenseIn(txs, category) || (tx.txType == Expense && CategoryName(tx) == category)
  {
    var all := txs + [tx];
    assert all[..|txs|] == txs;
    assert forall k :: 0 <= k < |txs| ==> all[k] == txs[k];
    assert all[|txs|] == tx;
  }

  /** totals.get(category, 0). */
  function Tally(totals: map<string, int>, category: string): int {
    if category in totals then totals[category] else 0
  }

  /** summarize_by_category: a total for each category some expense is
      filed under, and for no other. */
  method SummarizeByCategory(transactions: seq<Transaction>) returns (totals: map<string, int>)
    ensures forall c :: c in totals <==> HasExpenseIn(transactions, c)
    ensures forall c :: c in totals ==> totals[c] == CategoryTotal(transactions, c)
  {
    totals := map[];
    var i := 0;
    while i < |transactions|
      invariant 0 <= i <= |transactions|
      invariant forall c :: c in totals <==> HasExpenseIn(transactions[..i], c)
      invariant forall c :: Tally(totals, c) == CategoryTotal(transactions[..i], c)
    {
      var tx := transactions[i];
      PrefixSnoc(transactions, i);
      CategorySnocAll(transactions[..i], tx);
      totals := AddExpense(totals, tx);
      i := i + 1;
    }
    assert transactions[..i] == transactions;
  }

  /** One pass of the loop of summarize_by_category. */
  method AddExpense(prev: map<string, int>, tx: Transaction) returns (totals: map<string, int>)
    ensures forall c :: c in totals <==> c in prev || (tx.txType == Expense && CategoryName(tx) == c)
    ensures forall c ::
      Tally(totals, c) == Tally(prev, c) + (if tx.txType == Expense && CategoryName(tx) == c then tx.amount else 0)
  {
    totals := prev;
    if tx.txType != Expense {
      return;
    }
    var category := if tx.category == "" then "Uncategorized" else tx.category;
    totals := totals[category := Tally(totals, category) + tx.amount];
  }

  lemma CategorySnocAll(txs: seq<Transaction>, tx: Transaction)
    ensures forall c ::
      CategoryTotal(txs + [tx], c)
      == CategoryTotal(txs, c) + (if tx.txType == Expense && CategoryName(tx) == c then tx.amount else 0)
    ensures forall c ::
      HasExpenseIn(txs + [tx], c) <==> HasExpenseIn(txs, c) || (tx.txType == Expense && CategoryName(tx) == c)
  {
    forall c
      ensures CategoryTotal(txs + [tx], c) ==
        CategoryTotal(txs, c) + (if tx.txType == Expense && CategoryName(tx) == c then tx.amount else 0)
      ensures HasExpenseIn(txs + [tx], c) <==>
        HasExpenseIn(txs, c) || (tx.txType == Expense && CategoryName(tx) == c)
    {
      CategorySnoc(txs, tx, c);
    }
  }

  lemma {:induction false} NoExpenseNoTotal(txs: seq<Transaction>, category: string)
    requires !HasExpenseIn(txs, category)
    ensures CategoryTotal(txs, category) == 0
  {
    if txs != [] {
      var front := txs[..|txs| - 1];
      CategorySnoc(front, txs[|txs| - 1], category);
      assert front + [txs[|txs| - 1]] == txs;
      NoExpenseNoTotal(front, category);
    }
  }
}
