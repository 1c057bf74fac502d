/// `EnemyAccessor` (HPCEnemyAccessor.cpp): the characters other than the player, in
/// index order. The source keeps pointers into the character array; the model keeps
/// their indices.
module Enemies {
  import opened Params

  /// The indices below `n` other than `player`, in increasing order.
  function Others(n: nat, player: int): (r: seq<int>)
    ensures forall k :: 0 <= k < |r| ==> 0 <= r[k] < n && r[k] != player
    ensures forall k, l :: 0 <= k < l < |r| ==> r[k] < r[l]
    ensures forall j :: 0 <= j < n && j != player ==> j in r
    ensures |r| == if 0 <= player < n then n - 1 else n
  {
    if n == 0 then [] else if n - 1 == player then Others(n - 1, player) else Others(n - 1, player) + [n - 1]
  }

  /// The enemies of `player` among `items`, picked through `Others`.
  function Pick<T>(items: seq<T>, player: int): (r: seq<T>)
    ensures |r| == |Others(|items|, player)|
    ensures forall k :: 0 <= k < |r| ==> r[k] == items[Others(|items|, player)[k]]
  {
    var idx := Others(|items|, player);
    seq(|idx|, k requires 0 <= k < |idx| => items[idx[k]])
  }

  class EnemyAccessor {
    const enemies: array<int>
    var count: int

    ghost predicate Valid()
      reads this
    {
      enemies.Length == CharaCountMax - 1 && 0 <= count <= enemies.Length
    }

    /// The enemy indices in use.
    ghost function Contents(): seq<int>
      reads this, enemies
      requires Valid()
    {
      enemies[..count]
    }

    constructor ()
      ensures Valid() && fresh(enemies) && count == 0
    {
      enemies := new int[CharaCountMax - 1];
      count := 0;
    }

    /// `init`: restart from nothing and collect every index below `charaCount` except
    /// the player's. The closing assert of the source (one enemy fewer than
    /// characters) holds because the player index is one of the characters.
    method Init(charaCount: int, player: int)
      requires Valid() && 0 <= player < charaCount <= CharaCountMax
      modifies this, enemies
      ensures Valid() && Contents() == Others(charaCount, player)
      ensures count == charaCount - 1
    {
      count := 0;
      var index := 0;
      while index < charaCount
        invariant 0 <= index <= charaCount
        invariant count == |Others(index, player)| <= enemies.Length
        invariant enemies[..count] == Others(index, player)
      {
        if index != player {
          enemies[count] := index;
          count := count + 1;
        }
        index := index + 1;
      }
    }

    /// `operator[]`: only enemies in use may be read.
    function At(index: int): (r: int)
      reads this, enemies
      requires Valid() && 0 <= index < count
    {
      enemies[index]
    }
  }
}
