/// Integer overloads of the Math helpers (HPCMath.cpp). C++ `int` is 32 bits wide:
/// the only one of these that can leave that range is `Abs`, whose wrap-around is
/// written out.
module IntMath {
  const IntMin := -0x8000_0000
  const IntMax := 0x7FFF_FFFF

  predicate IsInt32(v: int) {
    IntMin <= v <= IntMax
  }

  /// Two's-complement wrap-around of an unbounded integer into 32 bits.
  function Wrap32(v: int): (r: int)
    ensures IsInt32(r)
    ensures (r - v) % 0x1_0000_0000 == 0
    ensures IsInt32(v) ==> r == v
  {
    (v - IntMin) % 0x1_0000_0000 + IntMin
  }

  /// `Math::Max(int, int)`: the larger argument.
  function Max(a: int, b: int): (r: int)
    ensures r == a || r == b
    ensures a <= r && b <= r
  {
    if a > b then a else b
  }

  /// `Math::Min(int, int)`: the smaller argument.
  function Min(a: int, b: int): (r: int)
    ensures r == a || r == b
    ensures r <= a && r <= b
  {
    if a < b then a else b
  }

  /// `Math::LimitMinMax(int, int, int)`: `v` clamped into `[lo, hi]`. The source does
  /// not check `lo <= hi`; when it fails, the result is `lo`.
  function LimitMinMax(v: int, lo: int, hi: int): (r: int)
    ensures lo <= hi ==> lo <= r <= hi
    ensures lo <= v <= hi ==> r == v
    ensures lo <= hi && v < lo ==> r == lo
    ensures lo <= hi && hi < v ==> r == hi
    ensures hi < lo ==> r == lo
  {
    Max(Min(v, hi), lo)
  }

  /// `Math::Abs(int)` on 32-bit integers. C++ leaves `-IntMin` undefined; for it the
  /// model gives the usual two's-complement result, `IntMin` itself.
  function Abs(v: int): (r: int)
    requires IsInt32(v)
    ensures IsInt32(r)
    ensures v != IntMin ==> 0 <= r && (r == v || r == -v)
    ensures 0 <= v ==> r == v
    ensures v == IntMin ==> r == IntMin
  {
    if v >= 0 then v else Wrap32(-v)
  }
}
