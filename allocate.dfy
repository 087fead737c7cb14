/** compute_shared_allocations (logic.py): how the amount of a shared
    record is split among its participants. Participants with an amount
    get it; the rest share what is left equally, rounded to the cent
    (half up), the last one taking whatever is left, if anything. The code
    hands every share but the last out in full even when that is more
    than is left (DistributeAsWritten, which the methods compute); the
    intended distribution caps them (Distribute). */
module Allocation {
  import opened Text
  import opened Options
  import opened Decimal
  import opened Ledger
  import opened Shares

  function Max(a: int, b: int): (r: int)
    ensures r >= a && r >= b && (r == a || r == b)
  {
    if a >= b then a else b
  }

  function Min(a: int, b: int): (r: int)
    ensures r <= a && r <= b && (r == a || r == b)
  {
    if a <= b then a else b
  }

  /** a / b rounded to the nearest cent, halves up. */
  function RoundDiv(a: nat, b: nat): (q: nat)
    requires b > 0
    ensures 2 * a - b <= 2 * b * q <= 2 * a + b
  {
    (2 * a + b) / (2 * b)
  }

  /** One split added to the explicit shares: its amount's magnitude is
      added to its stripped name, when it has both. */
  function ExplicitAfter(explicit: seq<Share>, s: SharedSplit): seq<Share> {
    var name := Strip(s.name);
    if name == [] || s.amount.None? then explicit else Add(explicit, name, Abs(s.amount.value))
  }

  /** One split added to the unspecified participants: its stripped name,
      when it has one and no amount. */
  function UnspecifiedAfter(unspecified: seq<string>, s: SharedSplit): (r: seq<string>)
    ensures |r| <= |unspecified| + 1
  {
    var name := Strip(s.name);
    unspecified + (if name != [] && s.amount.None? then [name] else [])
  }

  /** The participants with an amount, each with the sum of the
      magnitudes of their amounts, in order of first appearance. */
  function ExplicitShares(splits: seq<SharedSplit>): seq<Share> {
    if splits == [] then []
    else ExplicitAfter(ExplicitShares(splits[..|splits| - 1]), splits[|splits| - 1])
  }

  /** The participants without an amount, in order, repeats kept. */
  function Unspecified(splits: seq<SharedSplit>): (r: seq<string>)
    ensures |r| <= |splits|
  {
    if splits == [] then []
    else UnspecifiedAfter(Unspecified(splits[..|splits| - 1]), splits[|splits| - 1])
  }

  /** The equal share of each unspecified participant but the last. */
  function BaseShare(remaining: nat, count: nat): nat
    requires count > 0
  {
    if remaining > 0 then RoundDiv(remaining, count) else 0
  }

  /** The share of unspecified participant idx once handed has been
      handed out: the base share, capped at what is left, or for the
      last participant everything that is left. */
  function ShareAt(names: seq<string>, idx: nat, remaining: nat, handed: int): (share: int)
    requires idx < |names|
    ensures 0 <= handed <= remaining ==> 0 <= share <= remaining - handed
    ensures 0 <= handed <= remaining && idx == |names| - 1 ==> share == remaining - handed
  {
    if idx == |names| - 1 then Max(remaining - handed, 0)
    else Min(BaseShare(remaining, |names|), remaining - handed)
  }

  /** The distribution as intended, so that the shares add up to what is
      left: the allocations and the amount handed out after the first upTo
      unspecified participants, where each but the last takes the base share,
      capped at what has not yet been handed out; the last takes the
      rest. */
  function Distribute(init: seq<Share>, names: seq<string>, upTo: nat, remaining: nat)
    : (r: (seq<Share>, int))
    requires 0 < |names| && upTo <= |names|
    ensures 0 <= r.1 <= remaining
  {
    if upTo == 0 then (init, 0)
    else
      var prev := Distribute(init, names, upTo - 1, remaining);
      var share := ShareAt(names, upTo - 1, remaining, prev.1);
      (Add(prev.0, names[upTo - 1], share), if upTo == |names| then prev.1 else prev.1 + share)
  }

  /** The amount left for the participants without an amount. */
  function Remaining(tx: Transaction): nat {
    Max(NormalizeAmount(tx.amount) - Sum(ExplicitShares(tx.sharedSplits)), 0)
  }

  /** The allocations of a record as intended: none unless it is shared
      with participants; otherwise the explicit shares followed by the
      equal shares of the rest, capped so that they add up to what is
      left. */
  function SharedAllocations(tx: Transaction): seq<Share> {
    if !tx.sharedFlag || tx.sharedSplits == [] then []
    else
      var explicit := ExplicitShares(tx.sharedSplits);
      var unspecified := Unspecified(tx.sharedSplits);
      if unspecified == [] then explicit
      else Distribute(explicit, unspecified, |unspecified|, Remaining(tx)).0
  }

  /** compute_shared_allocations, as the code distributes: see
      SharedAllocationsAsWritten for what it computes and AsWrittenTotal
      for what that comes to. */
  method ComputeSharedAllocations(tx: Transaction) returns (allocations: seq<Share>)
    ensures allocations == SharedAllocationsAsWritten(tx)
  {
    if !tx.sharedFlag || tx.sharedSplits == [] {
      return [];
    }
    var totalAmount := NormalizeAmount(tx.amount);
    var explicit, unspecified := ClassifySplits(tx.sharedSplits);
    var specifiedTotal := Sum(explicit);
    var remaining := Max(totalAmount - specifiedTotal, 0);
    assert remaining == Remaining(tx);
    allocations := explicit;
    if unspecified != [] {
      allocations := DistributeRemaining(explicit, unspecified, remaining);
    }
  }

  /** The first loop of compute_shared_allocations: explicit shares
      summed per name, unspecified participants listed. */
  method ClassifySplits(splits: seq<SharedSplit>) returns (explicit: seq<Share>, unspecified: seq<string>)
    ensures explicit == ExplicitShares(splits)
    ensures unspecified == Unspecified(splits)
  {
    explicit := [];
    unspecified := [];
    var i := 0;
    while i < |splits|
      invariant 0 <= i <= |splits|
      invariant explicit == ExplicitShares(splits[..i])
      invariant unspecified == Unspecified(splits[..i])
    {
      ClassifyStep(splits, i);
      ghost var before := (explicit, unspecified);
      var split := splits[i];
      var name := Strip(split.name);
      if name == [] {
      } else if split.amount.None? {
        unspecified := unspecified + [name];
      } else {
        explicit := Add(explicit, name, Abs(split.amount.value));
      }
      assert explicit == ExplicitAfter(before.0, split) && unspecified == UnspecifiedAfter(before.1, split);
      i := i + 1;
    }
    assert splits[..i] == splits;
  }

  lemma ClassifyStep(splits: seq<SharedSplit>, i: int)
    requires 0 <= i < |splits|
    ensures ExplicitShares(splits[..i + 1]) == ExplicitAfter(ExplicitShares(splits[..i]), splits[i])
    ensures Unspecified(splits[..i + 1]) == UnspecifiedAfter(Unspecified(splits[..i]), splits[i])
  {
    assert splits[..i + 1][..i] == splits[..i];
  }

  /** The second loop of compute_shared_allocations: the equal shares,
      every one but the last the full base share. */
  method DistributeRemaining(explicit: seq<Share>, unspecified: seq<string>, remaining: nat)
    returns (allocations: seq<Share>)
    requires unspecified != []
    ensures allocations == DistributeAsWritten(explicit, unspecified, |unspecified|, remaining).0
  {
    allocations := explicit;
    var count := |unspecified|;
    var baseShare := if remaining > 0 then RoundDiv(remaining, count) else 0;
    var distributed := 0;
    var idx := 0;
    while idx < count
      invariant 0 <= idx <= count
      invariant (allocations, distributed) == DistributeAsWritten(explicit, unspecified, idx, remaining)
    {
      assert baseShare == BaseShare(remaining, count);
      var share;
      if idx == count - 1 {
        share := Max(remaining - distributed, 0);
      } else {
        share := baseShare;
        distributed := distributed + share;
      }
      allocations := Add(allocations, unspecified[idx], share);
      idx := idx + 1;
    }
  }

  // ---- properties ----

  lemma AddNonNegative(d: seq<Share>, name: string, v: int)
    requires NonNegative(d) && v >= 0
    ensures NonNegative(Add(d, name, v))
  {
    GetNonNegative(d, name);
    PutNonNegative(d, name, Get(d, name) + v);
  }

  lemma {:induction false} ExplicitNonNegative(splits: seq<SharedSplit>)
    ensures NonNegative(ExplicitShares(splits))
  {
    if splits != [] {
      ExplicitNonNegative(splits[..|splits| - 1]);
      var front := ExplicitShares(splits[..|splits| - 1]);
      var s := splits[|splits| - 1];
      var name := Strip(s.name);
      assert ExplicitShares(splits) == ExplicitAfter(front, s);
      if name != [] && s.amount.Some? {
        AddNonNegative(front, name, Abs(s.amount.value));
        assert ExplicitShares(splits) == Add(front, name, Abs(s.amount.value));
      } else {
        assert ExplicitShares(splits) == front;
      }
    }
  }

  /** Handing out never takes more than is left, and the total grows by
      what was handed out, or by everything left once the last
      participant has had their share. */
  lemma {:induction false} DistributeSum(init: seq<Share>, names: seq<string>, upTo: nat, remaining: nat)
    requires 0 < |names| && upTo <= |names|
    ensures var r := Distribute(init, names, upTo, remaining);
      Sum(r.0) == Sum(init) + (if upTo == |names| then remaining else r.1)
      && (NonNegative(init) ==> NonNegative(r.0))
  {
    if upTo > 0 {
      DistributeSum(init, names, upTo - 1, remaining);
      var prev := Distribute(init, names, upTo - 1, remaining);
      var share := ShareAt(names, upTo - 1, remaining, prev.1);
      AddSum(prev.0, names[upTo - 1], share);
      if NonNegative(init) {
        AddNonNegative(prev.0, names[upTo - 1], share);
      }
    }
  }

  /** Every allocation is at least zero, and together they come to the
      record's amount, or to the explicit shares when those exceed it;
      with no unspecified participant they are the explicit shares. */
  lemma AllocationsTotal(tx: Transaction)
    requires tx.sharedFlag && tx.sharedSplits != []
    ensures NonNegative(SharedAllocations(tx))
    ensures var explicit := Sum(ExplicitShares(tx.sharedSplits));
      Sum(SharedAllocations(tx)) ==
        if Unspecified(tx.sharedSplits) == [] then explicit
        else Max(NormalizeAmount(tx.amount), explicit)
  {
    ExplicitNonNegative(tx.sharedSplits);
    var unspecified := Unspecified(tx.sharedSplits);
    if unspecified != [] {
      DistributeSum(ExplicitShares(tx.sharedSplits), unspecified, |unspecified|, Remaining(tx));
    }
  }

  /** A record that is not shared, or has no participants, has no
      allocations. */
  lemma NoAllocationsUnlessShared(tx: Transaction)
    requires !tx.sharedFlag || tx.sharedSplits == []
    ensures SharedAllocations(tx) == []
  {
  }

  // ---- the distribution as written ----

  /** The distribution of logic.py:386-394 as written: every participant
      but the last takes the full base share, whether or not that much is
      left; the last takes what is left, at least zero. */
  function DistributeAsWritten(init: seq<Share>, names: seq<string>, upTo: nat, remaining: nat)
    : (r: (seq<Share>, int))
    requires 0 < |names| && upTo <= |names|
  {
    if upTo == 0 then (init, 0)
    else
      var prev := DistributeAsWritten(init, names, upTo - 1, remaining);
      if upTo == |names| then (Add(prev.0, names[upTo - 1], Max(remaining - prev.1, 0)), prev.1)
      else
        var share := BaseShare(remaining, |names|);
        (Add(prev.0, names[upTo - 1], share), prev.1 + share)
  }

  /** compute_shared_allocations as written. */
  function SharedAllocationsAsWritten(tx: Transaction): seq<Share> {
    if !tx.sharedFlag || tx.sharedSplits == [] then []
    else
      var explicit := ExplicitShares(tx.sharedSplits);
      var unspecified := Unspecified(tx.sharedSplits);
      if unspecified == [] then explicit
      else DistributeAsWritten(explicit, unspecified, |unspecified|, Remaining(tx)).0
  }

  /** As written, the total handed out is the base share for all but the
      last, plus what is left, if anything, for the last. */
  lemma {:induction false} AsWrittenSum(init: seq<Share>, names: seq<string>, upTo: nat, remaining: nat)
    requires 0 < |names| && upTo <= |names|
    ensures var r := DistributeAsWritten(init, names, upTo, remaining);
      var b := BaseShare(remaining, |names|);
      && r.1 == (if upTo == |names| then upTo - 1 else upTo) * b
      && Sum(r.0) == Sum(init) + r.1 + (if upTo == |names| then Max(remaining - r.1, 0) else 0)
  {
    if upTo > 0 {
      AsWrittenSum(init, names, upTo - 1, remaining);
      var b := BaseShare(remaining, |names|);
      MulStep(upTo, b);
      var prev := DistributeAsWritten(init, names, upTo - 1, remaining);
      if upTo == |names| {
        AddSum(prev.0, names[upTo - 1], Max(remaining - prev.1, 0));
      } else {
        AddSum(prev.0, names[upTo - 1], b);
      }
    }
  }

  /** Where the base shares of all but the last fit in what is left, the
      code as written and the capped distribution agree. */
  lemma {:induction false} AsWrittenAgrees(init: seq<Share>, names: seq<string>, upTo: nat, remaining: nat)
    requires 0 < |names| && upTo <= |names|
    requires (|names| - 1) * BaseShare(remaining, |names|) <= remaining
    ensures DistributeAsWritten(init, names, upTo, remaining) == Distribute(init, names, upTo, remaining)
    ensures upTo < |names| ==> Distribute(init, names, upTo, remaining).1 == upTo * BaseShare(remaining, |names|)
  {
    if upTo > 0 {
      AsWrittenAgrees(init, names, upTo - 1, remaining);
      var b := BaseShare(remaining, |names|);
      var prev := Distribute(init, names, upTo - 1, remaining);
      var share := ShareAt(names, upTo - 1, remaining, prev.1);
      MulStep(upTo, b);
      if upTo < |names| {
        MulMono(upTo, |names| - 1, b);
        assert prev.1 + b <= remaining;
        assert share == b;
        assert Distribute(init, names, upTo, remaining) == (Add(prev.0, names[upTo - 1], b), prev.1 + b);
      } else {
        assert Distribute(init, names, upTo, remaining)
          == (Add(prev.0, names[upTo - 1], Max(remaining - prev.1, 0)), prev.1);
      }
    }
  }

  lemma MulStep(u: nat, b: nat)
    requires u > 0
    ensures u * b == (u - 1) * b + b
  {
  }

  lemma MulMono(u: nat, v: nat, b: nat)
    requires u <= v
    ensures u * b <= v * b
  {
  }

  /** Seven cents left for nine participants: each of the first eight
      takes round(7/9) = 1 cent, so eight cents are handed out where
      seven were left. */
  lemma OverAllocation()
    ensures var names := ["p1", "p2", "p3", "p4", "p5", "p6", "p7", "p8", "p9"];
      Sum(DistributeAsWritten([], names, 9, 7).0) == 8
      && Sum(Distribute([], names, 9, 7).0) == 7
  {
    var names := ["p1", "p2", "p3", "p4", "p5", "p6", "p7", "p8", "p9"];
    assert BaseShare(7, 9) == 1;
    AsWrittenSum([], names, 9, 7);
    DistributeSum([], names, 9, 7);
  }

  /** Seven cents left for nine participants, whatever came before. */
  lemma NineShareSeven(init: seq<Share>, names: seq<string>)
    requires |names| == 9
    ensures Sum(DistributeAsWritten(init, names, 9, 7).0) == Sum(init) + 8
    ensures Sum(Distribute(init, names, 9, 7).0) == Sum(init) + 7
  {
    assert BaseShare(7, 9) == 1;
    AsWrittenSum(init, names, 9, 7);
    DistributeSum(init, names, 9, 7);
  }

  /** A shared record of seven cents among nine participants without an
      amount gets allocations of eight cents in all as written, and of
      exactly seven once the shares are capped. */
  lemma OverAllocatedRecord(tx: Transaction)
    requires tx.sharedFlag && tx.sharedSplits != []
    requires ExplicitShares(tx.sharedSplits) == [] && |Unspecified(tx.sharedSplits)| == 9
    requires NormalizeAmount(tx.amount) == 7
    ensures Sum(SharedAllocationsAsWritten(tx)) == 8
    ensures Sum(SharedAllocations(tx)) == 7
  {
    var names := Unspecified(tx.sharedSplits);
    assert Remaining(tx) == 7;
    NineShareSeven([], names);
  }

  /** As the code computes them, every allocation is at least zero; with
      no unspecified participant they total the explicit shares, and
      whenever the base shares of all but the last unspecified
      participant fit in what is left they total the record's amount, or
      the explicit shares when those exceed it, just as corrected. */
  lemma AsWrittenTotal(tx: Transaction)
    requires tx.sharedFlag && tx.sharedSplits != []
    ensures NonNegative(SharedAllocationsAsWritten(tx))
    ensures Unspecified(tx.sharedSplits) == [] ==>
      Sum(SharedAllocationsAsWritten(tx)) == Sum(ExplicitShares(tx.sharedSplits))
    ensures var u := Unspecified(tx.sharedSplits);
      u != [] && (|u| - 1) * BaseShare(Remaining(tx), |u|) <= Remaining(tx) ==>
      Sum(SharedAllocationsAsWritten(tx))
        == Max(NormalizeAmount(tx.amount), Sum(ExplicitShares(tx.sharedSplits)))
  {
    var explicit := ExplicitShares(tx.sharedSplits);
    var u := Unspecified(tx.sharedSplits);
    ExplicitNonNegative(tx.sharedSplits);
    if u == [] {
      assert SharedAllocationsAsWritten(tx) == explicit;
    } else {
      var rest := Remaining(tx);
      var total := NormalizeAmount(tx.amount);
      assert rest == Max(total - Sum(explicit), 0);
      assert Sum(explicit) + rest == Max(total, Sum(explicit));
      assert SharedAllocationsAsWritten(tx) == DistributeAsWritten(explicit, u, |u|, rest).0;
      AsWrittenShares(explicit, u, rest);
    }
  }

  /** The equal shares as the code hands them out are never negative, and
      add exactly what is left whenever the base shares fit in it. */
  lemma AsWrittenShares(explicit: seq<Share>, u: seq<string>, rest: nat)
    requires u != [] && NonNegative(explicit)
    ensures NonNegative(DistributeAsWritten(explicit, u, |u|, rest).0)
    ensures (|u| - 1) * BaseShare(rest, |u|) <= rest ==>
      Sum(DistributeAsWritten(explicit, u, |u|, rest).0) == Sum(explicit) + rest
  {
    AsWrittenNonNegative(explicit, u, |u|, rest);
    if (|u| - 1) * BaseShare(rest, |u|) <= rest {
      AsWrittenAgrees(explicit, u, |u|, rest);
      DistributeSum(explicit, u, |u|, rest);
    }
  }

  lemma {:induction false} AsWrittenNonNegative(init: seq<Share>, names: seq<string>, upTo: nat, remaining: nat)
    requires 0 < |names| && upTo <= |names| && NonNegative(init)
    ensures NonNegative(DistributeAsWritten(init, names, upTo, remaining).0)
  {
    if upTo > 0 {
      AsWrittenNonNegative(init, names, upTo - 1, remaining);
      var prev := DistributeAsWritten(init, names, upTo - 1, remaining);
      var share := if upTo == |names| then Max(remaining - prev.1, 0) else BaseShare(remaining, |names|);
      AddNonNegative(prev.0, names[upTo - 1], share);
    }
  }

  // ---- distinct names ----

  lemma AddDistinct(d: seq<Share>, name: string, v: int)
    requires Distinct(d)
    ensures Distinct(Add(d, name, v))
  {
    PutDistinct(d, name, Get(d, name) + v);
  }

  lemma {:induction false} ExplicitDistinct(splits: seq<SharedSplit>)
    ensures Distinct(ExplicitShares(splits))
  {
    if splits != [] {
      ExplicitDistinct(splits[..|splits| - 1]);
      var front := ExplicitShares(splits[..|splits| - 1]);
      var s := splits[|splits| - 1];
      var name := Strip(s.name);
      assert ExplicitShares(splits) == ExplicitAfter(front, s);
      if name != [] && s.amount.Some? {
        AddDistinct(front, name, Abs(s.amount.value));
        assert ExplicitShares(splits) == Add(front, name, Abs(s.amount.value));
      } else {
        assert ExplicitShares(splits) == front;
      }
    }
  }

  lemma {:induction false} DistributeDistinct(init: seq<Share>, names: seq<string>, upTo: nat, remaining: nat)
    requires 0 < |names| && upTo <= |names| && Distinct(init)
    ensures Distinct(Distribute(init, names, upTo, remaining).0)
  {
    if upTo > 0 {
      DistributeDistinct(init, names, upTo - 1, remaining);
      var prev := Distribute(init, names, upTo - 1, remaining);
      AddDistinct(prev.0, names[upTo - 1], ShareAt(names, upTo - 1, remaining, prev.1));
    }
  }

  lemma {:induction false} AsWrittenDistinct(init: seq<Share>, names: seq<string>, upTo: nat, remaining: nat)
    requires 0 < |names| && upTo <= |names| && Distinct(init)
    ensures Distinct(DistributeAsWritten(init, names, upTo, remaining).0)
  {
    if upTo > 0 {
      AsWrittenDistinct(init, names, upTo - 1, remaining);
      var prev := DistributeAsWritten(init, names, upTo - 1, remaining);
      var share := if upTo == |names| then Max(remaining - prev.1, 0) else BaseShare(remaining, |names|);
      AddDistinct(prev.0, names[upTo - 1], share);
    }
  }

  /** Each participant appears once in the allocations, as the code
      computes them and as corrected. */
  lemma AllocationsDistinct(tx: Transaction)
    ensures Distinct(SharedAllocationsAsWritten(tx))
    ensures Distinct(SharedAllocations(tx))
  {
    if tx.sharedFlag && tx.sharedSplits != [] {
      ExplicitDistinct(tx.sharedSplits);
      var unspecified := Unspecified(tx.sharedSplits);
      if unspecified != [] {
        AsWrittenDistinct(ExplicitShares(tx.sharedSplits), unspecified, |unspecified|, Remaining(tx));
        DistributeDistinct(ExplicitShares(tx.sharedSplits), unspecified, |unspecified|, Remaining(tx));
      }
    }
  }
}
