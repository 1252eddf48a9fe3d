/** Slices of slices. */
module Seqs {
  lemma SliceOfSlice<T>(s: seq<T>, a: nat, b: nat, i: nat, j: nat)
    requires a <= i <= j <= b <= |s|
    ensures s[a..b][i - a..j - a] == s[i..j]
  {
    forall k | 0 <= k < j - i
      ensures s[a..b][i - a..j - a][k] == s[i..j][k]
    {
      assert s[a..b][i - a + k] == s[i + k];
    }
  }

  lemma SuffixSnoc<T>(s: seq<T>, i: nat)
    requires i < |s|
    ensures s[i..] == s[..|s| - 1][i..] + [s[|s| - 1]]
  {
    forall k | 0 <= k < |s| - i
      ensures s[i..][k] == (s[..|s| - 1][i..] + [s[|s| - 1]])[k]
    {
      if k < |s| - 1 - i {
        assert s[..|s| - 1][i..][k] == s[i + k];
      }
    }
  }
}
