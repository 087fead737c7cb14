/** summarize_shared_expenses (logic.py): per-participant net totals of
    the shared records and the allocations of each record counted. A
    filter given as None or as text that strips to nothing is the empty
    string here; both mean no filter. */
module SharedSummary {
  import opened Seqs
  import opened Text
  import opened Options
  import opened Ledger
  import opened Shares
  import opened Allocation

  /** A counted record with its full allocations. */
  datatype Detail = Detail(tx: Transaction, allocations: seq<Share>)

  /** How a filter is compared: stripped and lower-cased. */
  function FilterKey(filter: string): string {
    Lower(Strip(filter))
  }

  /** The record is shared, an expense or an income, in the category
      asked for (if any), and has allocations. */
  predicate Qualifies(tx: Transaction, categoryKey: string) {
    && tx.sharedFlag
    && (tx.txType == Expense || tx.txType == Income)
    && (categoryKey == "" || Lower(Strip(tx.category)) == categoryKey)
    && SharedAllocationsAsWritten(tx) != []
  }

  /** The allocated name a participant key picks, compared lower-cased;
      the last such name wins, as in a dict built name by name. */
  function MatchName(allocations: seq<Share>, participantKey: string): (r: Option<string>)
    ensures r.Some? ==> Lower(r.value) == participantKey && r.value in Names(allocations)
  {
    if allocations == [] then None
    else
      var last := allocations[|allocations| - 1].name;
      var front := allocations[..|allocations| - 1];
      assert Names(allocations) == Names(front) + [last] by {
        NamesSnoc(front, allocations[|allocations| - 1]);
        assert front + [allocations[|allocations| - 1]] == allocations;
      }
      if Lower(last) == participantKey then Some(last) else MatchName(front, participantKey)
  }

  lemma {:induction false} NamesSnoc(d: seq<Share>, s: Share)
    ensures Names(d + [s]) == Names(d) + [s.name]
  {
    if d != [] {
      assert (d + [s])[1..] == d[1..] + [s];
      NamesSnoc(d[1..], s);
    }
  }

  /** The allocations a counted record adds to the summary: all of them,
      or only the one participant asked for; None when that participant
      is not among them. */
  function Counted(tx: Transaction, participantKey: string): Option<seq<Share>> {
    var allocations := SharedAllocationsAsWritten(tx);
    if participantKey == "" then Some(allocations)
    else
      match MatchName(allocations, participantKey)
      case None => None
      case Some(n) => Some([Share(n, Get(allocations, n))])
  }

  predicate Included(tx: Transaction, categoryKey: string, participantKey: string) {
    Qualifies(tx, categoryKey) && Counted(tx, participantKey).Some?
  }

  /** An expense adds what each participant owes; an income (a refund)
      takes it off. */
  function Signed(tx: Transaction, v: int): int {
    if tx.txType == Expense then v else -v
  }

  /** The net total of one participant over the records. */
  function Net(txs: seq<Transaction>, categoryKey: string, participantKey: string, name: string): int {
    if txs == [] then 0
    else
      var tx := txs[|txs| - 1];
      Net(txs[..|txs| - 1], categoryKey, participantKey, name)
      + (if Included(tx, categoryKey, participantKey)
         then Signed(tx, Get(Counted(tx, participantKey).value, name)) else 0)
  }

  /** The counted records with their allocations, in order. */
  function Details(txs: seq<Transaction>, categoryKey: string, participantKey: string): (r: seq<Detail>)
    ensures forall k :: 0 <= k < |r| ==> r[k].allocations == SharedAllocationsAsWritten(r[k].tx)
    ensures forall k :: 0 <= k < |r| ==> Included(r[k].tx, categoryKey, participantKey)
  {
    if txs == [] then []
    else
      var tx := txs[|txs| - 1];
      Details(txs[..|txs| - 1], categoryKey, participantKey)
      + (if Included(tx, categoryKey, participantKey) then [Detail(tx, SharedAllocationsAsWritten(tx))] else [])
  }

  /** summary.get(name, 0). */
  function Total(summary: map<string, int>, name: string): int {
    if name in summary then summary[name] else 0
  }

  lemma SummarySnoc(txs: seq<Transaction>, tx: Transaction, categoryKey: string, participantKey: string)
    ensures Details(txs + [tx], categoryKey, participantKey) == Details(txs, categoryKey, participantKey)
      + (if Included(tx, categoryKey, participantKey) then [Detail(tx, SharedAllocationsAsWritten(tx))] else [])
    ensures forall n ::
      Net(txs + [tx], categoryKey, participantKey, n) == Net(txs, categoryKey, participantKey, n)
      + (if Included(tx, categoryKey, participantKey) then Signed(tx, Get(Counted(tx, participantKey).value, n)) else 0)
  {
    assert (txs + [tx])[..|txs|] == txs;
  }

  /** summarize_shared_expenses: the nonzero net total of every
      participant, and the counted records with their full
      allocations. */
  method SummarizeSharedExpenses(transactions: seq<Transaction>, participantFilter: string, categoryFilter: string)
    returns (cleaned: map<string, int>, details: seq<Detail>)
    ensures var pk := FilterKey(participantFilter); var ck := FilterKey(categoryFilter);
      && details == Details(transactions, ck, pk)
      && (forall n :: n in cleaned <==> Net(transactions, ck, pk, n) != 0)
      && (forall n :: n in cleaned ==> cleaned[n] == Net(transactions, ck, pk, n))
  {
    var participantKey := FilterKey(participantFilter);
    var categoryKey := FilterKey(categoryFilter);
    var summary: map<string, int> := map[];
    details := [];
    var i := 0;
    while i < |transactions|
      invariant 0 <= i <= |transactions|
      invariant details == Details(transactions[..i], categoryKey, participantKey)
      invariant forall n :: Total(summary, n) == Net(transactions[..i], categoryKey, participantKey, n)
    {
      var tx := transactions[i];
      PrefixSnoc(transactions, i);
      SummarySnoc(transactions[..i], tx, categoryKey, participantKey);
      summary, details := SummarizeRecord(summary, details, tx, categoryKey, participantKey);
      i := i + 1;
    }
    assert transactions[..i] == transactions;
    cleaned := map n | n in summary && summary[n] != 0 :: summary[n];
  }

  /** One pass of the loop of summarize_shared_expenses. */
  method SummarizeRecord(summary: map<string, int>, details: seq<Detail>, tx: Transaction,
                         categoryKey: string, participantKey: string)
    returns (summary': map<string, int>, details': seq<Detail>)
    ensures details' == details
      + (if Included(tx, categoryKey, participantKey) then [Detail(tx, SharedAllocationsAsWritten(tx))] else [])
    ensures forall n ::
      Total(summary', n) == Total(summary, n)
      + (if Included(tx, categoryKey, participantKey) then Signed(tx, Get(Counted(tx, participantKey).value, n)) else 0)
  {
    summary', details' := summary, details;
    if !tx.sharedFlag || (tx.txType != Expense && tx.txType != Income)
       || (categoryKey != "" && Lower(Strip(tx.category)) != categoryKey) {
      return;
    }
    var allocations := ComputeSharedAllocations(tx);
    if allocations == [] {
      return;
    }
    var filtered: seq<Share>;
    if participantKey != "" {
      var original := MatchName(allocations, participantKey);
      if original.None? {
        return;
      }
      filtered := [Share(original.value, Get(allocations, original.value))];
    } else {
      filtered := allocations;
      AllocationsDistinct(tx);
    }
    assert Counted(tx, participantKey) == Some(filtered);
    details' := details + [Detail(tx, allocations)];
    summary' := AddShares(summary, filtered, tx.txType == Expense);
  }

  /** The inner loop: each allocation added to the participant's total,
      or taken off it for a refund. */
  method AddShares(summary: map<string, int>, entries: seq<Share>, expense: bool)
    returns (result: map<string, int>)
    requires Distinct(entries)
    ensures forall n :: Total(result, n) == Total(summary, n) + (if expense then Get(entries, n) else -Get(entries, n))
  {
    result := summary;
    var j := 0;
    while j < |entries|
      invariant 0 <= j <= |entries|
      invariant forall n :: Total(result, n) == Total(summary, n) + (if expense then Get(entries[..j], n) else -Get(entries[..j], n))
    {
      var e := entries[j];
      assert entries[..j + 1] == entries[..j] + [e];
      assert Distinct(entries[..j + 1]);
      forall n ensures Get(entries[..j + 1], n) == Get(entries[..j], n) + (if e.name == n then e.amount else 0) {
        GetSnoc(entries[..j], e, n);
      }
      var before := if e.name in result then result[e.name] else 0;
      result := result[e.name := before + (if expense then e.amount else -e.amount)];
      j := j + 1;
    }
    assert entries[..j] == entries;
  }

  // ---- properties ----

  /** With a participant filter, only the participant asked for has a
      total. */
  lemma {:induction false} FilterKeepsOneParticipant(txs: seq<Transaction>, categoryKey: string, participantKey: string, name: string)
    requires participantKey != "" && Lower(name) != participantKey
    ensures Net(txs, categoryKey, participantKey, name) == 0
  {
    if txs != [] {
      FilterKeepsOneParticipant(txs[..|txs| - 1], categoryKey, participantKey, name);
      var tx := txs[|txs| - 1];
      if Included(tx, categoryKey, participantKey) {
        var n := MatchName(SharedAllocationsAsWritten(tx), participantKey).value;
        assert Get([Share(n, Get(SharedAllocationsAsWritten(tx), n))], name) == 0 by {
          assert n != name;
          assert [Share(n, Get(SharedAllocationsAsWritten(tx), n))][1..] == [];
        }
      }
    }
  }

  /** Without filters, a participant's total is what they were allocated
      on shared expenses less what they were allocated on shared
      refunds. */
  lemma {:induction false} UnfilteredNet(txs: seq<Transaction>, name: string)
    ensures Net(txs, "", "", name) == ExpenseShare(txs, name) - RefundShare(txs, name)
  {
    if txs != [] {
      UnfilteredNet(txs[..|txs| - 1], name);
    }
  }

  function ExpenseShare(txs: seq<Transaction>, name: string): int {
    if txs == [] then 0
    else
      var tx := txs[|txs| - 1];
      ExpenseShare(txs[..|txs| - 1], name)
      + (if tx.sharedFlag && tx.txType == Expense then Get(SharedAllocationsAsWritten(tx), name) else 0)
  }

  function RefundShare(txs: seq<Transaction>, name: string): int {
    if txs == [] then 0
    else
      var tx := txs[|txs| - 1];
      RefundShare(txs[..|txs| - 1], name)
      + (if tx.sharedFlag && tx.txType == Income then Get(SharedAllocationsAsWritten(tx), name) else 0)
  }
}
