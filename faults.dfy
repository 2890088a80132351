/**
 * Repository calls that fail are given to each operation as data.  A run of
 * numbered writes that stops at its first failing write is described here once.
 */
module Faults {

  /** How many writes of a run of `n` go through before the first failing one. */
  function SavedCount(n: nat, failing: set<nat>): (k: nat)
    ensures k <= n
    ensures k < n ==> k in failing
    ensures forall j :: 0 <= j < k ==> j !in failing
  {
    if n == 0 then 0
    else
      var k := SavedCount(n - 1, failing);
      if k < n - 1 then k else if n - 1 in failing then n - 1 else n
  }

  /** A run that stops at write `c`, after every earlier write went through, saved `c` writes. */
  lemma StoppedAt(n: nat, failing: set<nat>, c: nat)
    requires c < n && c in failing
    requires forall j :: 0 <= j < c ==> j !in failing
    ensures SavedCount(n, failing) == c
  {
  }
}
