/// The `Swap` template of HPCLevelGrid.cpp: two entries of a sequence change
/// places. The grid shuffle calls it; the exchange sort of `updateRank` and the
/// start-position shuffle of the level designer exchange two entries inline
/// through a temporary, and the model states those exchanges with it too.
module Swaps {
  /// `Swap`: the entries at `p` and `q` change places.
  function Swap<T>(s: seq<T>, p: int, q: int): (r: seq<T>)
    requires 0 <= p < |s| && 0 <= q < |s|
    ensures |r| == |s| && r[p] == s[q] && r[q] == s[p]
    ensures forall j :: 0 <= j < |s| && j != p && j != q ==> r[j] == s[j]
  {
    s[p := s[q]][q := s[p]]
  }

  /// A swap rearranges the entries and nothing else.
  lemma SwapPermutes<T>(s: seq<T>, p: int, q: int)
    requires 0 <= p < |s| && 0 <= q < |s|
    ensures multiset(Swap(s, p, q)) == multiset(s)
  {
    assert Swap(s, p, q) == s[p := s[q]][q := s[p]];
  }
}
