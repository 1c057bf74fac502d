/// Integer two-dimensional vectors (HPCIntVec2.cpp). `IntVec2` is a value type in
/// the source, so it is a datatype here; the compound assignments (`+=`, `-=`, `*=`,
/// `/=`) are functions returning the updated value, and the binary operators are
/// defined through them exactly as the source defines them (copy, then compound).
module IntVectors {
  datatype IntVec2 = IntVec2(x: int, y: int)

  /// The default constructor and `reset`: the zero vector.
  const Origin := IntVec2(0, 0)

  /// `operator==`: two vectors compare equal exactly when they are the same vector.
  predicate Equals(a: IntVec2, b: IntVec2)
    ensures Equals(a, b) <==> a == b
  {
    a.x == b.x && a.y == b.y
  }

  /// Unary `operator-`: the additive inverse.
  function Neg(a: IntVec2): (r: IntVec2)
    ensures Add(a, r) == Origin && Add(r, a) == Origin
  {
    IntVec2(-a.x, -a.y)
  }

  /// `operator+=`.
  function AddAssign(v: IntVec2, rhs: IntVec2): IntVec2 {
    IntVec2(v.x + rhs.x, v.y + rhs.y)
  }

  /// `operator-=`, written through `+=` and unary minus as in the source: it agrees
  /// with binary `-`, and `+=` of the same vector undoes it.
  function SubAssign(v: IntVec2, rhs: IntVec2): (r: IntVec2)
    ensures r == Sub(v, rhs) && AddAssign(r, rhs) == v
  {
    AddAssign(v, Neg(rhs))
  }

  /// `operator*=(int)`.
  function MulAssign(v: IntVec2, k: int): IntVec2 {
    IntVec2(v.x * k, v.y * k)
  }

  /// `operator/=(int)`: C++ integer division, which truncates toward zero.
  function DivAssign(v: IntVec2, k: int): IntVec2
    requires k != 0
  {
    IntVec2(TruncDiv(v.x, k), TruncDiv(v.y, k))
  }

  /// Binary `operator+`: copy, then `+=`.
  function Add(a: IntVec2, b: IntVec2): IntVec2 {
    AddAssign(a, b)
  }

  /// Binary `operator-`, written as `a + (-b)`: the componentwise difference, which
  /// `+ b` undoes.
  function Sub(a: IntVec2, b: IntVec2): (r: IntVec2)
    ensures r == IntVec2(a.x - b.x, a.y - b.y)
    ensures Add(r, b) == a
  {
    Add(a, Neg(b))
  }

  /// `operator*(int)`: copy, then `*=`.
  function Mul(a: IntVec2, k: int): IntVec2 {
    MulAssign(a, k)
  }

  /// The friend `operator*(int, IntVec2)`, written as `aRhs * aLhs`: scaling from the
  /// left is componentwise too.
  function MulLeft(k: int, a: IntVec2): (r: IntVec2)
    ensures r == IntVec2(k * a.x, k * a.y)
  {
    Mul(a, k)
  }

  /// `operator/(int)`: copy, then `/=`.
  function Div(a: IntVec2, k: int): IntVec2
    requires k != 0
  {
    DivAssign(a, k)
  }

  /// C++ `/` on `int`: the quotient truncated toward zero (Dafny's own `/` is Euclidean).
  function TruncDiv(a: int, b: int): int
    requires b != 0
  {
    var q := (if a < 0 then -a else a) / (if b < 0 then -b else b);
    if (a < 0) == (b < 0) then q else -q
  }

  /// The remainder left by `TruncDiv` is smaller than the divisor in magnitude and
  /// has the sign of the dividend: the definition of C++ truncating division.
  lemma {:induction false} TruncDivRemainder(a: int, b: int)
    requires b != 0
    ensures var r := a - b * TruncDiv(a, b);
      (if r < 0 then -r else r) < (if b < 0 then -b else b) &&
      (r == 0 || (r < 0) == (a < 0))
  {
    var na := if a < 0 then -a else a;
    var nb := if b < 0 then -b else b;
    var q0 := na / nb;
    var r0 := na % nb;
    assert na == nb * q0 + r0 && 0 <= r0 < nb;
    if a < 0 && b < 0 {
      assert a - b * q0 == -(na - nb * q0);
    } else if a < 0 {
      assert a - b * (-q0) == -(na - nb * q0);
    } else if b < 0 {
      assert a - b * (-q0) == na - nb * q0;
    } else {
      assert a - b * q0 == na - nb * q0;
    }
  }

  /// `a / k` undoes `a * k` for any nonzero `k`.
  lemma {:induction false} DivUndoesMul(a: IntVec2, k: int)
    requires k != 0
    ensures Div(Mul(a, k), k) == a
  {
    TruncDivOfMultiple(a.x, k);
    TruncDivOfMultiple(a.y, k);
  }

  lemma {:induction false} TruncDivOfMultiple(v: int, k: int)
    requires k != 0
    ensures TruncDiv(v * k, k) == v
  {
    var nv := if v < 0 then -v else v;
    var nk := if k < 0 then -k else k;
    var p := v * k;
    var np := if p < 0 then -p else p;
    assert np == nv * nk by {
      if v < 0 && k < 0 { assert p == (-v) * (-k); }
      else if v < 0 { assert -p == (-v) * k; }
      else if k < 0 { assert -p == v * (-k); }
    }
    DivOfProduct(nv, nk);
    assert np / nk == nv;
    if v == 0 {
      assert p == 0;
    } else {
      assert (p < 0) == ((v < 0) != (k < 0)) by {
        if v < 0 && k < 0 { assert p == (-v) * (-k); }
        else if v < 0 { assert -p == (-v) * k; }
        else if k < 0 { assert -p == v * (-k); }
      }
    }
  }

  lemma {:induction false} DivOfProduct(n: nat, m: int)
    requires 0 < m
    ensures (n * m) / m == n
  {
    var q := (n * m) / m;
    var r := (n * m) % m;
    assert n * m == m * q + r && 0 <= r < m;
    assert m * (n - q) == r by {
      assert m * (n - q) == m * n - m * q;
    }
    if n - q > 0 {
      MulAtLeast(m, n - q);
    }
  }

  lemma MulAtLeast(m: int, d: int)
    requires 0 < m && 1 <= d
    ensures m * d >= m
  {
    assert m * d == m * (d - 1) + m;
    assert m * (d - 1) >= 0;
  }
}
