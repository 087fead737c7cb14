/** An insertion-ordered mapping from participant names to cents, as the
    Python dicts of the shared-expense code behave: reading a missing name
    gives 0 (dict.get(name, 0.0)), writing a present name keeps its place,
    writing a new one appends it. */
module Shares {

  datatype Share = Share(name: string, amount: int)

  /** The names, in order (list(d)). */
  function Names(d: seq<Share>): (ns: seq<string>)
    ensures |ns| == |d|
  {
    if d == [] then [] else [d[0].name] + Names(d[1..])
  }

  lemma {:induction false} NamesAt(d: seq<Share>, k: int)
    requires 0 <= k < |d|
    ensures Names(d)[k] == d[k].name
  {
    if k > 0 {
      NamesAt(d[1..], k - 1);
    }
  }

  /** No name appears twice. */
  predicate Distinct(d: seq<Share>) {
    forall i, j :: 0 <= i < j < |d| ==> d[i].name != d[j].name
  }

  predicate NonNegative(d: seq<Share>) {
    forall k :: 0 <= k < |d| ==> d[k].amount >= 0
  }

  /** d.get(name, 0). */
  function Get(d: seq<Share>, name: string): int {
    if d == [] then 0
    else if d[0].name == name then d[0].amount
    else Get(d[1..], name)
  }

  /** A name that is not there reads 0. */
  lemma {:induction false} GetAbsent(d: seq<Share>, name: string)
    requires name !in Names(d)
    ensures Get(d, name) == 0
  {
    if d != [] {
      assert Names(d) == [d[0].name] + Names(d[1..]);
      GetAbsent(d[1..], name);
    }
  }

  /** Amounts that are all at least zero read at least zero. */
  lemma {:induction false} GetNonNegative(d: seq<Share>, name: string)
    requires NonNegative(d)
    ensures Get(d, name) >= 0
  {
    if d != [] && d[0].name != name {
      assert forall k :: 0 <= k < |d| - 1 ==> d[1..][k] == d[k + 1];
      GetNonNegative(d[1..], name);
    }
  }

  /** d[name] = v. */
  function Put(d: seq<Share>, name: string, v: int): seq<Share> {
    if d == [] then [Share(name, v)]
    else if d[0].name == name then [Share(name, v)] + d[1..]
    else [d[0]] + Put(d[1..], name, v)
  }

  /** After d[name] = v, name reads v and every other name what it read
      before; the names keep their order and a new one comes last. */
  lemma {:induction false} PutGet(d: seq<Share>, name: string, v: int)
    ensures Get(Put(d, name, v), name) == v
    ensures forall n :: n != name ==> Get(Put(d, name, v), n) == Get(d, n)
    ensures Names(Put(d, name, v)) == if name in Names(d) then Names(d) else Names(d) + [name]
  {
    if d != [] {
      var r := Put(d, name, v);
      if d[0].name == name {
        assert r[1..] == d[1..];
      } else {
        PutGet(d[1..], name, v);
        assert r[1..] == Put(d[1..], name, v);
        assert r[0] == d[0];
      }
    }
  }

  lemma {:induction false} PutNonNegative(d: seq<Share>, name: string, v: int)
    requires NonNegative(d) && v >= 0
    ensures NonNegative(Put(d, name, v))
  {
    if d != [] && d[0].name != name {
      assert forall k :: 0 <= k < |d| - 1 ==> d[1..][k] == d[k + 1];
      PutNonNegative(d[1..], name, v);
      var r := Put(d, name, v);
      assert forall k :: 1 <= k < |r| ==> r[k] == Put(d[1..], name, v)[k - 1];
    }
  }

  /** Writing keeps the names distinct. */
  lemma PutDistinct(d: seq<Share>, name: string, v: int)
    requires Distinct(d)
    ensures Distinct(Put(d, name, v))
  {
    var r := Put(d, name, v);
    PutGet(d, name, v);
    forall k | 0 <= k < |r| ensures Names(r)[k] == r[k].name {
      NamesAt(r, k);
    }
    forall k | 0 <= k < |d| ensures Names(d)[k] == d[k].name {
      NamesAt(d, k);
    }
  }

  /** d[name] = d.get(name, 0) + v. */
  function Add(d: seq<Share>, name: string, v: int): seq<Share> {
    Put(d, name, Get(d, name) + v)
  }

  /** sum(d.values()). */
  function Sum(d: seq<Share>): int {
    if d == [] then 0 else d[0].amount + Sum(d[1..])
  }

  lemma {:induction false} PutSum(d: seq<Share>, name: string, v: int)
    ensures Sum(Put(d, name, v)) == Sum(d) - Get(d, name) + v
  {
    if d != [] && d[0].name != name {
      PutSum(d[1..], name, v);
      assert Put(d, name, v)[1..] == Put(d[1..], name, v);
    }
  }

  /** Adding to one name adds as much to the total. */
  lemma AddSum(d: seq<Share>, name: string, v: int)
    ensures Sum(Add(d, name, v)) == Sum(d) + v
  {
    PutSum(d, name, Get(d, name) + v);
  }

  lemma {:induction false} NonNegativeSum(d: seq<Share>)
    requires NonNegative(d)
    ensures Sum(d) >= 0
  {
    if d != [] {
      NonNegativeSum(d[1..]);
    }
  }

  /** The amount of a name that occurs once, read from a list grown by
      one share. */
  lemma {:induction false} GetSnoc(d: seq<Share>, s: Share, name: string)
    requires Distinct(d + [s])
    ensures Get(d + [s], name) == Get(d, name) + (if s.name == name then s.amount else 0)
  {
    if d != [] {
      var c := d + [s];
      assert c[1..] == d[1..] + [s];
      assert Distinct(d[1..] + [s]) by {
        forall i, j | 0 <= i < j < |d[1..] + [s]|
          ensures (d[1..] + [s])[i].name != (d[1..] + [s])[j].name
        {
          assert (d[1..] + [s])[i] == c[i + 1];
          assert (d[1..] + [s])[j] == c[j + 1];
        }
      }
      GetSnoc(d[1..], s, name);
      assert c[0] == d[0] && c[|d|] == s;
    }
  }
}
