/** int64 arithmetic and sums over maps. */
module Coin {

  const TWO63 := 0x8000_0000_0000_0000
  const TWO64 := 0x1_0000_0000_0000_0000

  /** A Go int64. */
  type int64 = x: int | -TWO63 <= x < TWO63

  /** The int64 with the same low 64 bits as x. */
  function Wrap64(x: int): int64 {
    (x + TWO63) % TWO64 - TWO63
  }

  /** Unary minus on an int64; the least one is its own negative. */
  function Neg64(c: int64): int64 {
    var x: int := c;
    Wrap64(-x)
  }

  lemma WrapFits(x: int64)
    ensures Wrap64(x) == x
  {
  }

  /** Wrapping early or late makes no difference. */
  lemma WrapAdd(x: int, y: int)
    ensures Wrap64(Wrap64(x) + y) == Wrap64(x + y)
  {
  }

  lemma WrapShift(x: int, k: int)
    ensures Wrap64(x - k * TWO64) == Wrap64(x)
  {
  }

  /** A non-zero amount always shows. */
  lemma WrapChanges(x: int, c: int64)
    ensures Wrap64(x + c) == Wrap64(x) <==> c == 0
  {
    WrapAdd(x, c);
  }

  /** The sum of all values. */
  ghost function Sum<K>(m: map<K, int>): int
    decreases |m|
  {
    if m == map[] then 0
    else
      var k :| k in m;
      m[k] + Sum(m - {k})
  }

  lemma {:induction false} SumRemove<K>(m: map<K, int>, k: K)
    requires k in m
    ensures Sum(m) == m[k] + Sum(m - {k})
    decreases |m|
  {
    var c :| c in m && Sum(m) == m[c] + Sum(m - {c});
    if c != k {
      SumRemove(m - {c}, k);
      SumRemove(m - {k}, c);
      assert m - {c} - {k} == m - {k} - {c};
    }
  }

  /** Setting one value moves the sum by the difference. */
  lemma SumUpdate<K>(m: map<K, int>, k: K, v: int)
    ensures Sum(m[k := v]) == Sum(m) + v - if k in m then m[k] else 0
  {
    SumRemove(m[k := v], k);
    assert m[k := v] - {k} == m - {k};
    if k in m {
      SumRemove(m, k);
    } else {
      assert m - {k} == m;
    }
  }
}
