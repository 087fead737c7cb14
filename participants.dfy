/** The net total of one participant on the shared-expenses screen
    (app.py, SharedExpensesScreen._update_participant_details): over the
    records the shared summary counted, every allocation whose name
    matches case-insensitively adds its amount for an expense and takes
    it off otherwise, with the sign turned round once more for a record
    paid through DEBT_BORROWED. */
module ParticipantDetail {
  import opened Text
  import opened Options
  import opened Ledger
  import opened Shares
  import opened Allocation
  import opened SharedSummary

  const DebtBorrowedDevice := "DEBT_BORROWED"

  /** +1 for an expense and -1 otherwise, negated for DEBT_BORROWED. */
  function DetailSign(tx: Transaction): (s: int)
    ensures s == 1 || s == -1
    ensures tx.device != DebtBorrowedDevice ==> (s == 1 <==> tx.txType == Expense)
  {
    var sign := if tx.txType == Expense then 1 else -1;
    if tx.device == DebtBorrowedDevice then -sign else sign
  }

  /** The signed amounts of the allocations whose name lower-cases to key. */
  function AllocationNet(allocations: seq<Share>, key: string, sign: int): int {
    if allocations == [] then 0
    else
      var last := allocations[|allocations| - 1];
      AllocationNet(allocations[..|allocations| - 1], key, sign)
      + (if Lower(last.name) == key then sign * last.amount else 0)
  }

  /** The net total of a participant over the details. */
  function ParticipantNet(details: seq<Detail>, key: string): int {
    if details == [] then 0
    else
      var d := details[|details| - 1];
      ParticipantNet(details[..|details| - 1], key) + AllocationNet(d.allocations, key, DetailSign(d.tx))
  }

  /** _update_participant_details, its net total: None when there are no
      transactions, where the screen keeps what it showed. */
  method UpdateParticipantNet(transactions: seq<Transaction>, details: seq<Detail>, participantName: string)
    returns (net: Option<int>)
    ensures net.None? <==> transactions == []
    ensures net.Some? ==> net.value == ParticipantNet(details, Lower(participantName))
  {
    if transactions == [] {
      return None;
    }
    var participantLower := Lower(participantName);
    var netTotal := 0;
    var i := 0;
    while i < |details|
      invariant 0 <= i <= |details|
      invariant netTotal == ParticipantNet(details[..i], participantLower)
    {
      assert details[..i + 1][..i] == details[..i];
      var tx := details[i].tx;
      var sign := if tx.txType == Expense then 1 else -1;
      if tx.device == DebtBorrowedDevice {
        sign := -sign;
      }
      assert sign == DetailSign(tx);
      netTotal := AddMatching(netTotal, details[i].allocations, participantLower, sign);
      i := i + 1;
    }
    assert details[..|details|] == details;
    return Some(netTotal);
  }

  /** The inner loop: the signed amount of every allocation whose name
      matches added to the running total. */
  method AddMatching(netTotal: int, allocations: seq<Share>, participantLower: string, sign: int)
    returns (total: int)
    ensures total == netTotal + AllocationNet(allocations, participantLower, sign)
  {
    total := netTotal;
    var j := 0;
    while j < |allocations|
      invariant 0 <= j <= |allocations|
      invariant total == netTotal + AllocationNet(allocations[..j], participantLower, sign)
    {
      assert allocations[..j + 1][..j] == allocations[..j];
      if Lower(allocations[j].name) == participantLower {
        total := total + sign * allocations[j].amount;
      }
      j := j + 1;
    }
    assert allocations[..|allocations|] == allocations;
  }

  /** Only the name key itself lower-cases to key among the allocations. */
  predicate OnlyKeyMatches(allocations: seq<Share>, key: string) {
    forall k :: 0 <= k < |allocations| && Lower(allocations[k].name) == key ==> allocations[k].name == key
  }

  /** With distinct names and no other spelling of the key, the matching
      allocations add up to the key's own amount. */
  lemma {:induction false} AllocationNetGet(allocations: seq<Share>, key: string, sign: int)
    requires IsLower(key) && Distinct(allocations) && OnlyKeyMatches(allocations, key)
    ensures AllocationNet(allocations, key, sign) == sign * Get(allocations, key)
  {
    if allocations != [] {
      var front := allocations[..|allocations| - 1];
      var last := allocations[|allocations| - 1];
      assert allocations == front + [last];
      assert forall k :: 0 <= k < |front| ==> front[k] == allocations[k];
      assert Distinct(front) && OnlyKeyMatches(front, key);
      AllocationNetGet(front, key, sign);
      GetSnoc(front, last, key);
      LowerIsLower(key);
      assert Lower(last.name) == key <==> last.name == key;
      var here := if last.name == key then last.amount else 0;
      assert sign * (Get(front, key) + here) == sign * Get(front, key) + sign * here;
    }
  }

  /** A record paid through DEBT_BORROWED counts with the opposite sign. */
  lemma {:induction false} AllocationNetNegates(allocations: seq<Share>, key: string, sign: int)
    ensures AllocationNet(allocations, key, -sign) == -AllocationNet(allocations, key, sign)
  {
    if allocations != [] {
      AllocationNetNegates(allocations[..|allocations| - 1], key, sign);
    }
  }

  lemma BorrowedFlipsSign(d: Detail, key: string)
    requires d.tx.device != DebtBorrowedDevice
    ensures var flipped := Detail(d.tx.(device := DebtBorrowedDevice), d.allocations);
      AllocationNet(flipped.allocations, key, DetailSign(flipped.tx))
      == -AllocationNet(d.allocations, key, DetailSign(d.tx))
  {
    AllocationNetNegates(d.allocations, key, DetailSign(d.tx));
  }

  /** The screen's sign agrees with the summary's on other records. */
  lemma SignedBySign(tx: Transaction, v: int)
    requires tx.device != DebtBorrowedDevice
    ensures Signed(tx, v) == DetailSign(tx) * v
  {
  }

  /** Without DEBT_BORROWED records, and when no participant is spelt
      two ways, the screen's net total of a lower-case name is the one
      the summary gives it (unfiltered by participant). */
  lemma {:induction false} ParticipantNetIsSummaryNet(txs: seq<Transaction>, categoryKey: string, key: string)
    requires IsLower(key)
    requires forall k :: 0 <= k < |txs| ==>
      txs[k].device != DebtBorrowedDevice && OnlyKeyMatches(SharedAllocationsAsWritten(txs[k]), key)
    ensures ParticipantNet(Details(txs, categoryKey, ""), key) == Net(txs, categoryKey, "", key)
  {
    if txs != [] {
      var front := txs[..|txs| - 1];
      var tx := txs[|txs| - 1];
      assert txs == front + [tx];
      assert forall k :: 0 <= k < |front| ==> front[k] == txs[k];
      ParticipantNetIsSummaryNet(front, categoryKey, key);
      SummarySnoc(front, tx, categoryKey, "");
      if Included(tx, categoryKey, "") {
        var allocations := SharedAllocationsAsWritten(tx);
        var ds := Details(txs, categoryKey, "");
        assert ds == Details(front, categoryKey, "") + [Detail(tx, allocations)];
        assert ds[..|ds| - 1] == Details(front, categoryKey, "");
        assert ParticipantNet(ds, key)
          == ParticipantNet(Details(front, categoryKey, ""), key) + AllocationNet(allocations, key, DetailSign(tx));
        AllocationsDistinct(tx);
        AllocationNetGet(allocations, key, DetailSign(tx));
        assert Counted(tx, "").value == allocations;
        SignedBySign(tx, Get(allocations, key));
      } else {
        assert Details(txs, categoryKey, "") == Details(front, categoryKey, "");
      }
    }
  }
}
