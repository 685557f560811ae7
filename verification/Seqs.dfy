/** Sequences without repetition, and with one element left out. */
module Seqs {
  ghost predicate Distinct(s: seq<int>) {
    forall i, j :: 0 <= i < j < |s| ==> s[i] != s[j]
  }

  /** Distinct addresses, none of them null. */
  ghost predicate Addresses(s: seq<int>) {
    && (forall i :: 0 <= i < |s| ==> s[i] != 0)
    && (forall i, j :: 0 <= i < j < |s| ==> s[i] != s[j])
  }

  function Without<T>(s: seq<T>, k: int): seq<T>
    requires 0 <= k < |s|
  {
    s[..k] + s[k + 1..]
  }
}
