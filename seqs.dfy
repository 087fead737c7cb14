/** Facts about sequence prefixes used by the loops that walk a list
    front to back. */
module Seqs {

  /** The prefix one longer is the prefix with the next element added. */
  lemma PrefixSnoc<T>(s: seq<T>, i: int)
    requires 0 <= i < |s|
    ensures s[..i + 1] == s[..i] + [s[i]]
    ensures s[..i + 1][..i] == s[..i]
  {
  }
}
