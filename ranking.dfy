/// The ranking order of `CharaCollection` (HPCCharaCollection.cpp: `IsHighOrder`
/// and the exchange sort inside `updateRank`).
module Ranking {
  import opened Swaps
  /// What `IsHighOrder` looks at in a character.
  datatype RankKey = RankKey(goal: bool, passedTurn: int, passedLotus: int)

  /// `IsHighOrder(a, b)`: does `a` rank strictly ahead of `b`? A goal character is
  /// ahead of one that is not; of two goal characters the one that took fewer turns
  /// is ahead; of two that are not goal, the one that passed more lotuses is ahead.
  predicate HigherOrder(a: RankKey, b: RankKey) {
    if a.goal && !b.goal then true
    else if !a.goal && b.goal then false
    else if a.goal && b.goal then a.passedTurn < b.passedTurn
    else b.passedLotus < a.passedLotus
  }

  /// `IsHighOrder` is a strict order: irreflexive, asymmetric and transitive.
  lemma StrictOrder(a: RankKey, b: RankKey, c: RankKey)
    ensures !HigherOrder(a, a)
    ensures HigherOrder(a, b) ==> !HigherOrder(b, a)
    ensures HigherOrder(a, b) && HigherOrder(b, c) ==> HigherOrder(a, c)
  {
  }

  /// `s` lists each of `0 .. |s|-1` once, and `inv` says where each one stands.
  ghost predicate Perm(s: seq<int>, inv: seq<int>) {
    |inv| == |s| &&
    (forall p :: 0 <= p < |s| ==> 0 <= s[p] < |s| && inv[s[p]] == p) &&
    (forall i :: 0 <= i < |s| ==> 0 <= inv[i] < |s| && s[inv[i]] == i)
  }

  /// The first `m` positions hold their final entries: none of the entries after
  /// them ranks ahead.
  ghost predicate Settled(keys: seq<RankKey>, s: seq<int>, m: int)
    requires forall p :: 0 <= p < |s| ==> 0 <= s[p] < |keys|
  {
    forall p, q :: 0 <= p < m && p < q < |s| ==> !HigherOrder(keys[s[q]], keys[s[p]])
  }

  /// No entry at positions `a+1 .. b-1` ranks ahead of the entry at `a`.
  ghost predicate HeadAhead(keys: seq<RankKey>, s: seq<int>, a: int, b: int)
    requires 0 <= a < |s| && b <= |s|
    requires forall p :: 0 <= p < |s| ==> 0 <= s[p] < |keys|
  {
    forall q :: a < q < b ==> !HigherOrder(keys[s[q]], keys[s[a]])
  }

  lemma SwapPerm(s: seq<int>, inv: seq<int>, p: int, q: int)
    requires Perm(s, inv) && 0 <= p < q < |s|
    ensures Perm(Swap(s, p, q), inv[s[p] := q][s[q] := p])
  {
  }

  lemma SwapKeepsSettled(keys: seq<RankKey>, s: seq<int>, m: int, p: int, q: int)
    requires forall j :: 0 <= j < |s| ==> 0 <= s[j] < |keys|
    requires Settled(keys, s, m) && 0 <= m <= p < q < |s|
    ensures Settled(keys, Swap(s, p, q), m)
  {
    var r := Swap(s, p, q);
    forall p', q' | 0 <= p' < m && p' < q' < |r|
      ensures !HigherOrder(keys[r[q']], keys[r[p']])
    {
      if q' == p {
        assert r[q'] == s[q];
      } else if q' == q {
        assert r[q'] == s[p];
      }
    }
  }

  /// One exchange step of the inner loop keeps the entry at `a` ahead of every
  /// entry visited so far.
  lemma StepKeepsHead(keys: seq<RankKey>, s: seq<int>, a: int, b: int)
    requires forall j :: 0 <= j < |s| ==> 0 <= s[j] < |keys|
    requires 0 <= a < b < |s| && HeadAhead(keys, s, a, b)
    ensures HigherOrder(keys[s[b]], keys[s[a]]) ==> HeadAhead(keys, Swap(s, a, b), a, b + 1)
    ensures !HigherOrder(keys[s[b]], keys[s[a]]) ==> HeadAhead(keys, s, a, b + 1)
  {
    if HigherOrder(keys[s[b]], keys[s[a]]) {
      var r := Swap(s, a, b);
      forall q | a < q < b + 1
        ensures !HigherOrder(keys[r[q]], keys[r[a]])
      {
        if q < b {
          StrictOrder(keys[s[q]], keys[s[b]], keys[s[a]]);
        } else {
          StrictOrder(keys[s[b]], keys[s[a]], keys[s[a]]);
        }
      }
    }
  }

  /// One pass of the outer loop of the exchange sort: bring to position `indexA` an
  /// entry that no later entry ranks ahead of.
  method PlaceHead(a: array<int>, keys: seq<RankKey>, indexA: int, ghost inv: seq<int>)
    returns (ghost inv': seq<int>)
    requires a.Length == |keys| && 0 <= indexA < a.Length
    requires Perm(a[..], inv) && Settled(keys, a[..], indexA)
    modifies a
    ensures Perm(a[..], inv') && Settled(keys, a[..], indexA + 1)
  {
    var n := a.Length;
    inv' := inv;
    var indexB := indexA + 1;
    while indexB < n
      invariant indexA + 1 <= indexB <= n
      invariant Perm(a[..], inv')
      invariant Settled(keys, a[..], indexA)
      invariant HeadAhead(keys, a[..], indexA, indexB)
    {
      StepKeepsHead(keys, a[..], indexA, indexB);
      if HigherOrder(keys[a[indexB]], keys[a[indexA]]) {
        ghost var before := a[..];
        SwapPerm(before, inv', indexA, indexB);
        SwapKeepsSettled(keys, before, indexA, indexA, indexB);
        inv' := inv'[a[indexA] := indexB][a[indexB] := indexA];
        a[indexA], a[indexB] := a[indexB], a[indexA];
        assert a[..] == Swap(before, indexA, indexB);
      }
      indexB := indexB + 1;
    }
  }

  /// The exchange sort of `updateRank`, on indices instead of pointers: start from
  /// `0 .. n-1` and, for every pair of positions `p < q`, swap when the entry at `q`
  /// ranks ahead of the entry at `p`. The result lists every index once, and no entry
  /// ranks ahead of an earlier one.
  method SortOrder(keys: seq<RankKey>) returns (order: seq<int>)
    ensures |order| == |keys|
    ensures forall p :: 0 <= p < |order| ==> 0 <= order[p] < |keys|
    ensures forall p, q :: 0 <= p < q < |order| ==> order[p] != order[q]
    ensures forall i :: 0 <= i < |keys| ==> i in order
    ensures forall p, q :: 0 <= p < q < |order| ==> !HigherOrder(keys[order[q]], keys[order[p]])
  {
    var n := |keys|;
    var a := new int[n](i => i);
    ghost var inv: seq<int> := a[..];
    var indexA := 0;
    while indexA < n
      invariant 0 <= indexA <= n
      invariant Perm(a[..], inv)
      invariant Settled(keys, a[..], indexA)
    {
      inv := PlaceHead(a, keys, indexA, inv);
      indexA := indexA + 1;
    }
    order := a[..];
    forall i | 0 <= i < n
      ensures i in order
    {
      assert order[inv[i]] == i;
    }
  }
}
