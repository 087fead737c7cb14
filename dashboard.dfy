/** The dashboard's billing-cycle arithmetic (a cycle runs from the 19th
    of one month to the 18th of the next), its once-a-month guard for
    clearing the card debt, and the card debt run up within one cycle
    (app.py, DashboardScreen). Today's date, the settings document and the
    stored rows are parameters. */
module Dashboard {
  import opened Text
  import opened Options
  import opened Decimal
  import opened Calendar
  import opened JsonValues
  import opened Ledger
  import opened Allocation

  datatype Cycle = Cycle(start: Date, end: Date)

  /** The year and month after (y, m). */
  function MonthAfter(y: nat, m: nat): (nat, nat) {
    if m == 12 then (y + 1, 1) else (y, m + 1)
  }

  /** A cycle as the docstrings promise it: real dates, from a 19th to the
      18th of the month after. */
  predicate WellFormed(c: Cycle) {
    && ValidDate(c.start) && ValidDate(c.end)
    && c.start.day == 19 && c.end.day == 18
    && (c.end.year, c.end.month) == MonthAfter(c.start.year, c.start.month)
  }

  lemma WellFormedOrdered(c: Cycle)
    requires WellFormed(c)
    ensures Before(c.start, c.end)
  {
  }

  predicate Within(c: Cycle, d: Date) {
    NotAfter(c.start, d) && NotAfter(d, c.end)
  }

  // ---- date steps the cycle code takes ----

  /** today.replace(day=28) + timedelta(days=4): a day in the first week
      of the next month. It overflows in December 9999. */
  function FourDaysAfter28th(d: Date): (r: Date)
    requires ValidDate(d) && (d.year, d.month) != (9999, 12)
    ensures ValidDate(r) && 1 <= r.day <= 4
    ensures (r.year, r.month) == MonthAfter(d.year, d.month)
  {
    NextDay(NextDay(NextDay(NextDay(WithDay(d, 28)))))
  }

  /** d.replace(day=1) - timedelta(days=1): the last day of the month
      before. It overflows in January of year 1. */
  function EndOfPreviousMonth(d: Date): (r: Date)
    requires ValidDate(d) && (d.year, d.month) != (1, 1)
    ensures ValidDate(r) && r.day >= 28
    ensures MonthAfter(r.year, r.month) == (d.year, d.month)
  {
    PrevDay(WithDay(d, 1))
  }

  /** The day a calendar month starts on needs no step back past year 1
      when it follows another month. */
  lemma FirstOfMonthAfterFirstMonth(d: Date)
    requires ValidDate(d) && (d.year, d.month) != (9999, 12)
    ensures (FourDaysAfter28th(d).year, FourDaysAfter28th(d).month) != (1, 1)
  {
  }

  // ---- get_current_billing_cycle / get_previous_billing_cycle ----

  /** get_current_billing_cycle as written. None where Python's date
      arithmetic raises OverflowError. From the 19th on, the end is taken
      as the 18th of the current month, before the start. */
  function CurrentBillingCycleAsWritten(today: Date): (r: Option<Cycle>)
    requires ValidDate(today)
    ensures r.None? <==>
      (today.day >= 19 && (today.year, today.month) == (9999, 12))
      || (today.day < 19 && (today.year, today.month) == (1, 1))
    ensures r.Some? ==> ValidDate(r.value.start) && ValidDate(r.value.end)
  {
    if today.day >= 19 then
      if (today.year, today.month) == (9999, 12) then None
      else
        var nextMonth := FourDaysAfter28th(today);
        FirstOfMonthAfterFirstMonth(today);
        var end := WithDay(PrevDay(Date(nextMonth.year, nextMonth.month, 1)), 18);
        Some(Cycle(WithDay(today, 19), end))
    else if (today.year, today.month) == (1, 1) then None
    else Some(Cycle(WithDay(EndOfPreviousMonth(today), 19), WithDay(today, 18)))
  }

  /** get_current_billing_cycle as its docstring describes it: from the
      19th on, the cycle ends on the 18th of the next month. */
  function CurrentBillingCycle(today: Date): (r: Option<Cycle>)
    requires ValidDate(today)
    ensures r.None? <==>
      (today.day >= 19 && (today.year, today.month) == (9999, 12))
      || (today.day < 19 && (today.year, today.month) == (1, 1))
    ensures r.Some? ==> WellFormed(r.value) && Within(r.value, today)
  {
    if today.day >= 19 then
      if (today.year, today.month) == (9999, 12) then None
      else
        var nextMonth := FourDaysAfter28th(today);
        Some(Cycle(WithDay(today, 19), WithDay(nextMonth, 18)))
    else if (today.year, today.month) == (1, 1) then None
    else Some(Cycle(WithDay(EndOfPreviousMonth(today), 19), WithDay(today, 18)))
  }

  /** get_previous_billing_cycle. None where Python's date arithmetic
      raises OverflowError. */
  function PreviousBillingCycle(today: Date): (r: Option<Cycle>)
    requires ValidDate(today)
    ensures r.None? <==>
      (today.year, today.month) == (1, 1) || (today.day < 19 && (today.year, today.month) == (1, 2))
    ensures r.Some? ==> WellFormed(r.value) && Before(r.value.end, today)
  {
    if (today.year, today.month) == (1, 1) then None
    else
      var lastMonthEnd := EndOfPreviousMonth(today);
      if today.day >= 19 then
        Some(Cycle(WithDay(lastMonthEnd, 19), WithDay(today, 18)))
      else if (lastMonthEnd.year, lastMonthEnd.month) == (1, 1) then None
      else
        var twoMonthsAgo := EndOfPreviousMonth(lastMonthEnd);
        Some(Cycle(WithDay(twoMonthsAgo, 19), WithDay(lastMonthEnd, 18)))
  }

  /** The previous cycle ends the day before the current one starts. */
  lemma CyclesAdjoin(today: Date)
    requires ValidDate(today)
    requires PreviousBillingCycle(today).Some? && CurrentBillingCycle(today).Some?
    ensures NextDay(PreviousBillingCycle(today).value.end) == CurrentBillingCycle(today).value.start
  {
  }

  /** From the 19th on, the current cycle as written ends before it
      starts and before today; before the 19th it is the intended one. */
  lemma CurrentCycleAsWrittenEndsEarly(today: Date)
    requires ValidDate(today)
    ensures var r := CurrentBillingCycleAsWritten(today);
      r.Some? && today.day >= 19 ==> Before(r.value.end, r.value.start) && Before(r.value.end, today)
    ensures today.day < 19 ==> CurrentBillingCycleAsWritten(today) == CurrentBillingCycle(today)
  {
    if today.day >= 19 && (today.year, today.month) != (9999, 12) {
      var nextMonth := FourDaysAfter28th(today);
      FirstOfMonthAfterFirstMonth(today);
      var last := PrevDay(Date(nextMonth.year, nextMonth.month, 1));
      assert (last.year, last.month) == (today.year, today.month);
    }
  }

  // ---- should_clear_debt / mark_debt_cleared ----

  const LastClearedKey := "last_debt_cleared"

  /** should_clear_debt: only on the 19th, and not when the settings
      record a clearing (YYYY-MM-DD) in the same year and month. A
      recorded value that is not text, or text strptime refuses, does not
      stop the clearing. */
  function ShouldClearDebt(today: Date, settings: map<string, Json>): (r: bool)
    ensures r ==> today.day == 19
    ensures today.day == 19 && LastClearedKey !in settings ==> r
  {
    if today.day != 19 then false
    else if LastClearedKey in settings && Truthy(settings[LastClearedKey]) && settings[LastClearedKey].JString? then
      var last := Strptime(settings[LastClearedKey].s, '-', true);
      !(last.Some? && last.value.year == today.year && last.value.month == today.month)
    else true
  }

  /** mark_debt_cleared: the settings with today recorded as the last
      clearing, every other setting kept. */
  function MarkDebtCleared(settings: map<string, Json>, today: Date): (s: map<string, Json>)
    ensures s.Keys == settings.Keys + {LastClearedKey}
    ensures forall k :: k in settings && k != LastClearedKey ==> s[k] == settings[k]
    ensures s[LastClearedKey] == JString(StrftimeYmd(today))
  {
    settings[LastClearedKey := JString(StrftimeYmd(today))]
  }

  /** Once marked, the debt is not cleared again that month, and is
      cleared on the 19th of any other month. */
  lemma ClearedOncePerMonth(settings: map<string, Json>, today: Date, later: Date)
    requires ValidDate(today)
    ensures (later.year, later.month) == (today.year, today.month) ==>
      !ShouldClearDebt(later, MarkDebtCleared(settings, today))
    ensures later.day == 19 && (later.year, later.month) != (today.year, today.month) ==>
      ShouldClearDebt(later, MarkDebtCleared(settings, today))
  {
    StrptimeRoundTrip(today);
    assert |StrftimeYmd(today)| == 10;
  }

  // ---- get_outstanding_balance_for_cycle ----

  /** A description that marks a payment, a clearing or a reset. */
  predicate MarksSettlement(description: string) {
    var u := Upper(description);
    Contains(u, "PAYMENT") || Contains(u, "CLEARED") || Contains(u, "RESET")
  }

  /** A card expense the cycle's debt counts. */
  predicate IsCardCharge(tx: Transaction) {
    tx.txType == Expense && tx.device in CreditCardDevices && !MarksSettlement(tx.description)
  }

  /** An income that records a card payment. */
  predicate IsCardPayment(tx: Transaction) {
    tx.txType == Income && Contains(Upper(tx.description), "CREDIT CARD PAYMENT")
  }

  /** One record's effect on the running debt of the cycle. */
  function CycleStep(total: int, tx: Transaction, c: Cycle): int {
    if !Within(c, tx.date) then total
    else if IsCardCharge(tx) then total + Abs(tx.amount)
    else if IsCardPayment(tx) then Max(0, total - Abs(tx.amount))
    else total
  }

  /** The card debt of the records within the cycle: charges add, payments
      take off but never below zero. */
  function CycleDebt(txs: seq<Transaction>, c: Cycle): (r: int)
    ensures r >= 0
  {
    if txs == [] then 0 else CycleStep(CycleDebt(txs[..|txs| - 1], c), txs[|txs| - 1], c)
  }

  /** The charges of the cycle alone. */
  function CycleCharges(txs: seq<Transaction>, c: Cycle): (r: int) {
    if txs == [] then 0
    else
      var tx := txs[|txs| - 1];
      CycleCharges(txs[..|txs| - 1], c) + (if Within(c, tx.date) && IsCardCharge(tx) then Abs(tx.amount) else 0)
  }

  /** Payments only lower the debt: it is at most the cycle's charges,
      and equal to them when the cycle holds no payment. */
  lemma {:induction false} CycleDebtAtMostCharges(txs: seq<Transaction>, c: Cycle)
    ensures CycleDebt(txs, c) <= CycleCharges(txs, c)
    ensures (forall k :: 0 <= k < |txs| && Within(c, txs[k].date) ==> !IsCardPayment(txs[k])) ==>
      CycleDebt(txs, c) == CycleCharges(txs, c)
  {
    if txs != [] {
      var front := txs[..|txs| - 1];
      assert forall k :: 0 <= k < |front| ==> front[k] == txs[k];
      CycleDebtAtMostCharges(front, c);
    }
  }

  /** The records the stored rows decode to. */
  function DecodedRows(rows: seq<Row>, today: Date, now: DateTime, freshId: string): (txs: seq<Transaction>)
    ensures |txs| == |rows|
  {
    if rows == [] then []
    else DecodedRows(rows[..|rows| - 1], today, now, freshId) + [TransactionFromRow(rows[|rows| - 1], today, now, freshId)]
  }

  lemma DecodedSnoc(rows: seq<Row>, i: int, today: Date, now: DateTime, freshId: string)
    requires 0 <= i < |rows|
    ensures DecodedRows(rows[..i + 1], today, now, freshId)
      == DecodedRows(rows[..i], today, now, freshId) + [TransactionFromRow(rows[i], today, now, freshId)]
  {
    assert rows[..i + 1][..i] == rows[..i];
  }

  lemma CycleDebtSnoc(txs: seq<Transaction>, tx: Transaction, c: Cycle)
    ensures CycleDebt(txs + [tx], c) == CycleStep(CycleDebt(txs, c), tx, c)
  {
    assert (txs + [tx])[..|txs|] == txs;
  }

  /** The loop of get_outstanding_balance_for_cycle, reading each row's
      own date: the cycle's card debt, never negative. today, now and
      freshId are what the decoder falls back on. */
  method OutstandingBalanceForCycle(rows: seq<Row>, c: Cycle, today: Date, now: DateTime, freshId: string)
    returns (totalDebt: int)
    ensures totalDebt == CycleDebt(DecodedRows(rows, today, now, freshId), c)
    ensures totalDebt >= 0
  {
    totalDebt := 0;
    var i := 0;
    assert rows[..0] == [];
    assert DecodedRows(rows[..0], today, now, freshId) == [];
    while i < |rows|
      invariant 0 <= i <= |rows|
      invariant totalDebt == CycleDebt(DecodedRows(rows[..i], today, now, freshId), c)
    {
      totalDebt := CountRow(rows, i, c, today, now, freshId, totalDebt);
      i := i + 1;
    }
    assert rows[..|rows|] == rows;
  }

  /** One row of the loop: the debt of the first i decoded rows becomes
      that of the first i + 1. */
  method CountRow(rows: seq<Row>, i: nat, c: Cycle, today: Date, now: DateTime, freshId: string,
                  totalDebt: int) returns (t: int)
    requires i < |rows|
    requires totalDebt == CycleDebt(DecodedRows(rows[..i], today, now, freshId), c)
    ensures t == CycleDebt(DecodedRows(rows[..i + 1], today, now, freshId), c)
  {
    var tx := TransactionFromRow(rows[i], today, now, freshId);
    DecodedSnoc(rows, i, today, now, freshId);
    CycleDebtSnoc(DecodedRows(rows[..i], today, now, freshId), tx, c);
    t := CountInCycle(totalDebt, tx, c);
  }

  /** The body of the loop for one record: skipped outside the cycle, a
      card charge added, a card payment taken off down to zero. */
  method CountInCycle(totalDebt: int, tx: Transaction, c: Cycle) returns (t: int)
    ensures t == CycleStep(totalDebt, tx, c)
  {
    t := totalDebt;
    if !(NotAfter(c.start, tx.date) && NotAfter(tx.date, c.end)) {
      return;
    }
    if tx.txType == Expense && tx.device in CreditCardDevices && !MarksSettlement(tx.description) {
      t := t + Abs(tx.amount);
    } else if tx.txType == Income && Contains(Upper(tx.description), "CREDIT CARD PAYMENT") {
      t := Max(0, t - Abs(tx.amount));
    }
  }

  /** A row whose split cell holds a JSON scalar, on which the decoder as
      written raises. */
  predicate ScalarSplitsCell(row: Row) {
    row.splits.Loaded? && row.splits.doc.Some? && Iterated(row.splits.doc.value).None?
  }

  predicate HasScalarSplitsCell(rows: seq<Row>) {
    exists k :: 0 <= k < |rows| && ScalarSplitsCell(rows[k])
  }

  /** transaction_from_row(row) as written, where all that matters is
      whether it raises: the record it returns is skipped. */
  method DecodeRaises(row: Row, today: Date, now: DateTime, freshId: string) returns (raises: bool)
    ensures raises <==> ScalarSplitsCell(row)
  {
    var tx := TransactionFromRowAsWritten(row, today, now, freshId);
    raises := tx.RaisesTypeError?;
  }

  /** get_outstanding_balance_for_cycle as written: it reads the date from
      an attribute date_value, which a transaction does not have, so
      every row is skipped. The decoder's TypeError still escapes. */
  method OutstandingBalanceForCycleAsWritten(rows: seq<Row>, c: Cycle, today: Date, now: DateTime, freshId: string)
    returns (r: Outcome<int>)
    ensures r.RaisesTypeError? <==> HasScalarSplitsCell(rows)
    ensures r.Returns? ==> r.value == 0
  {
    var totalDebt := 0;
    var i := 0;
    while i < |rows|
      invariant 0 <= i <= |rows|
      invariant forall k :: 0 <= k < i ==> !ScalarSplitsCell(rows[k])
      invariant totalDebt == 0
    {
      var raises := DecodeRaises(rows[i], today, now, freshId);
      if raises {
        return RaisesTypeError;
      }
      // getattr(tx, 'date_value', None) is None for every record, so the
      // row is skipped before any amount is looked at.
      i := i + 1;
    }
    return Returns(totalDebt);
  }

  /** A card charge of 5.00 inside the cycle from 19 March to 18 April
      2024: read back from its row, the corrected loop counts it, while
      the loop as written returns 0 for the same row, which holds no
      scalar split cell. */
  lemma CycleChargeCounted(now: DateTime)
    requires ValidDateTime(now)
    ensures var rows := [TransactionToRow(Groceries(now))];
      && CycleDebt(DecodedRows(rows, Date(2024, 3, 25), now, "fresh"), Cycle(Date(2024, 3, 19), Date(2024, 4, 18))) == 500
      && !HasScalarSplitsCell(rows)
  {
    GroceriesRow(now);
    GroceriesDebt(now, Cycle(Date(2024, 3, 19), Date(2024, 4, 18)));
  }

  lemma FirstLetterAbsent(haystack: string, needle: string)
    requires needle != [] && needle[0] !in haystack
    ensures !Contains(haystack, needle)
  {
    forall i | 0 <= i <= |haystack| - |needle|
      ensures !OccursAt(haystack, needle, i)
    {
      assert haystack[i..i + |needle|][0] == haystack[i];
    }
  }

  /** A card purchase of 5.00 on 20 March 2024. */
  function Groceries(now: DateTime): Transaction {
    Transaction("t1", now, Expense, CreditCardExpenseSubType, 500, Date(2024, 3, 20),
      "Food", "Food", "CREDIT_CARD", "", "", false, "link", false, [], "")
  }

  lemma GroceriesRow(now: DateTime)
    requires ValidDateTime(now)
    ensures DecodedRows([TransactionToRow(Groceries(now))], Date(2024, 3, 25), now, "fresh") == [Groceries(now)]
    ensures !ScalarSplitsCell(TransactionToRow(Groceries(now)))
  {
    RowRoundTrip(Groceries(now), Date(2024, 3, 25), now, "fresh");
    var rows := [TransactionToRow(Groceries(now))];
    assert rows[..0] == [];
  }

  lemma GroceriesDebt(now: DateTime, c: Cycle)
    requires c == Cycle(Date(2024, 3, 19), Date(2024, 4, 18))
    ensures CycleDebt([Groceries(now)], c) == 500
  {
    var tx := Groceries(now);
    assert !MarksSettlement("Food") by {
      assert Upper("Food") == "FOOD";
      FirstLetterAbsent("FOOD", "PAYMENT");
      FirstLetterAbsent("FOOD", "CLEARED");
      FirstLetterAbsent("FOOD", "RESET");
    }
    assert [tx][..0] == [];
  }
}
