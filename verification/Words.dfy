/** Fixed-width unsigned arithmetic as the firmware's C types perform it, and powers of two. */
module Words {

  datatype Option<+T> = None | Some(value: T)

  const BYTE := 0x100
  const WORD := 0x1_0000
  const DWORD := 0x1_0000_0000

  /** Value of a C expression stored into a uint8_t. */
  function U8(x: int): (r: nat)
    ensures r < BYTE
  {
    x % 0x100
  }

  /** Value of a C expression stored into a uint16_t. */
  function U16(x: int): (r: nat)
    ensures r < WORD
  {
    x % 0x1_0000
  }

  /** Value of a C expression stored into a uint32_t. */
  function U32(x: int): (r: nat)
    ensures r < DWORD
  {
    x % 0x1_0000_0000
  }

  function Abs(x: int): nat {
    if x < 0 then -x else x
  }

  function Min(a: int, b: int): int {
    if a < b then a else b
  }

  lemma MulSign(d: int, m: int)
    requires m > 0
    ensures d >= 1 ==> d * m >= m
    ensures d <= -1 ==> d * m <= -m
  {
  }

  /** A product, kept folded in proofs. */
  function Times(a: nat, b: nat): nat {
    a * b
  }

  lemma TimesLess(a: nat, b: nat)
    requires a > 0
    ensures Times(a, b) == Times(a - 1, b) + b
  {
  }

  lemma MulMono(a: nat, b: nat, p: nat, q: nat)
    requires a <= b && p <= q
    ensures a * p <= b * q
  {
    assert a * p <= b * p;
    assert b * p <= b * q;
  }

  /** Quotient and remainder are determined by the division identity. */
  lemma DivModUnique(x: int, m: int, q: int, r: int)
    requires m > 0 && 0 <= r < m && x == q * m + r
    ensures x / m == q && x % m == r
  {
    var d := q - x / m;
    assert x % m - r == d * m;
    MulSign(d, m);
  }

  lemma ModAdd(x: int, d: int, m: int)
    requires m > 0
    ensures (x % m + d) % m == (x + d) % m
  {
    var y := x % m + d;
    assert x + d == (x / m + y / m) * m + y % m;
    DivModUnique(x + d, m, x / m + y / m, y % m);
  }
}
