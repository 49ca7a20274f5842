/** Fixed-width integer ranges of the C sources and an optional value. */
module Common {

  /** `uint8_t`, `uint16_t` and `uint32_t` as ranges of the unbounded integers. */
  type u8 = x: int | 0 <= x < 0x100
  type u16 = x: int | 0 <= x < 0x1_0000
  type u32 = x: int | 0 <= x < 0x1_0000_0000

  const U32_MODULUS: int := 0x1_0000_0000

  datatype Option<T> = None | Some(value: T)

  /** The low four bits of a byte, weighted 1, 2, 4 and 8, add up to the byte modulo 16. */
  lemma LowNibbleBits(x: u8)
    ensures x % 2 + 2 * ((x / 2) % 2) + 4 * ((x / 4) % 2) + 8 * ((x / 8) % 2) == x % 16
  {
    var x1, x2, x3 := x / 2, x / 4, x / 8;
    assert x == 2 * x1 + x % 2;
    assert x1 == 2 * x2 + x1 % 2;
    assert x2 == 2 * x3 + x2 % 2;
    assert x3 == 2 * (x / 16) + x3 % 2;
    assert x == 16 * (x / 16) + (x % 2 + 2 * (x1 % 2) + 4 * (x2 % 2) + 8 * (x3 % 2));
  }

  /** Multiplying by a positive factor keeps the order. */
  lemma MulAtLeast(d: int, a: int, b: int)
    requires 0 < d && a <= b
    ensures d * a <= d * b
  {
    assert d * b - d * a == d * (b - a);
  }

  /** Integer division by a positive divisor keeps the order of non-negative values. */
  lemma DivMonotone(x: int, y: int, d: int)
    requires 0 <= x <= y && 0 < d
    ensures x / d <= y / d
  {
    var qx, qy := x / d, y / d;
    assert d * qx + x % d == x && d * qy + y % d == y;
    if qx > qy {
      MulAtLeast(d, qy + 1, qx);
      assert false;
    }
  }

  /** Quotient and remainder are unique: any decomposition with a remainder in range is the one. */
  lemma DivModUnique(x: int, n: int, q: int, r: int)
    requires 0 < n && x == n * q + r && 0 <= r < n
    ensures x / n == q && x % n == r
  {
    var q0, r0 := x / n, x % n;
    assert x == n * q0 + r0;
    if q0 < q {
      MulAtLeast(n, q0 + 1, q);
      assert false;
    }
    if q0 > q {
      MulAtLeast(n, q + 1, q0);
      assert false;
    }
  }

  /** Counting modulo n: the successor of the residue of j is the residue of j + 1. */
  lemma ModSuccessor(j: int, n: int)
    requires 0 < n
    ensures (j % n + 1) % n == (j + 1) % n
  {
    var q, m := j / n, j % n;
    assert j == n * q + m;
    if m + 1 < n {
      DivModUnique(j + 1, n, q, m + 1);
      DivModUnique(m + 1, n, 0, m + 1);
    } else {
      DivModUnique(j + 1, n, q + 1, 0);
      DivModUnique(m + 1, n, 1, 0);
    }
  }
}
