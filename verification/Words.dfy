/** 32-bit words as numbers below 2^32, and JavaScript's 32-bit operators on numbers. */
module Words {
  import opened Basics

  const M: int := 0x1_0000_0000

  type Word = w: int | 0 <= w < 0x1_0000_0000

  lemma Pow2Values()
    ensures Pow2(0) == 1 && Pow2(8) == 0x100 && Pow2(16) == 0x1_0000 && Pow2(24) == 0x100_0000 && Pow2(32) == M
  {
    assert Pow2(4) == 16;
    assert Pow2(8) == 0x100;
    assert Pow2(12) == 0x1000;
    assert Pow2(16) == 0x1_0000;
    assert Pow2(20) == 0x10_0000;
    assert Pow2(24) == 0x100_0000;
    assert Pow2(28) == 0x1000_0000;
  }

  // ── Bitwise operations ──────────────────────────────────────────────────

  datatype Op = And | Or | Xor

  function Bit(op: Op, x: int, y: int): (b: nat)
    ensures b <= 1
  {
    match op
    case And => if x == 1 && y == 1 then 1 else 0
    case Or => if x == 1 || y == 1 then 1 else 0
    case Xor => if x == y then 0 else 1
  }

  /** `op` on the low `n` bits of `x` and `y`. */
  function Bitwise(op: Op, x: nat, y: nat, n: nat): (r: nat)
    ensures r < Pow2(n)
  {
    if n == 0 then 0 else Bit(op, x % 2, y % 2) + 2 * Bitwise(op, x / 2, y / 2, n - 1)
  }

  function Combine(op: Op, x: Word, y: Word): Word {
    Pow2Values();
    Bitwise(op, x, y, 32)
  }

  /** OR-ing a value into bits that are still clear adds it. */
  lemma {:induction false} OrOfDisjoint(x: nat, y: nat, m: nat, k: nat, n: nat)
    requires k <= n && x == Pow2(k) * m && x < Pow2(n) && y < Pow2(k)
    ensures Bitwise(Or, x, y, n) == x + y
  {
    if n > 0 {
      if k == 0 {
        OrOfDisjoint(x / 2, 0, x / 2, 0, n - 1);
      } else {
        assert x == 2 * (Pow2(k - 1) * m) by { MulAssociates(2, Pow2(k - 1), m); }
        OrOfDisjoint(x / 2, y / 2, m, k - 1, n - 1);
      }
    }
  }

  lemma MulAssociates(a: int, b: int, c: int)
    ensures a * b * c == a * (b * c)
  {}

  // ── JavaScript numbers ──────────────────────────────────────────────────

  /** ToUint32 (ECMAScript, section 7.1.7). */
  function Unsigned(x: int): Word {
    x % M
  }

  /** ToInt32 (section 7.1.6): also `x | 0`. */
  function Signed(x: int): (r: int)
    ensures -0x8000_0000 <= r < 0x8000_0000 && Unsigned(r) == Unsigned(x)
  {
    var u := x % M;
    if u < 0x8000_0000 then u else u - M
  }

  function JsAnd(x: int, y: int): (r: int)
    ensures Unsigned(r) == Combine(And, Unsigned(x), Unsigned(y))
    ensures -0x8000_0000 <= r < 0x8000_0000
  {
    Signed(Combine(And, Unsigned(x), Unsigned(y)))
  }

  function JsOr(x: int, y: int): (r: int)
    ensures Unsigned(r) == Combine(Or, Unsigned(x), Unsigned(y))
    ensures -0x8000_0000 <= r < 0x8000_0000
  {
    Signed(Combine(Or, Unsigned(x), Unsigned(y)))
  }

  function JsXor(x: int, y: int): (r: int)
    ensures Unsigned(r) == Combine(Xor, Unsigned(x), Unsigned(y))
    ensures -0x8000_0000 <= r < 0x8000_0000
  {
    Signed(Combine(Xor, Unsigned(x), Unsigned(y)))
  }

  function JsNot(x: int): (r: int)
    ensures Unsigned(r) == M - 1 - Unsigned(x)
    ensures -0x8000_0000 <= r < 0x8000_0000
  {
    -1 - Signed(x)
  }

  /** `x << n` */
  function JsShl(x: int, n: nat): (r: int)
    requires n < 32
    ensures Unsigned(r) == Unsigned(Unsigned(x) * Pow2(n))
    ensures -0x8000_0000 <= r < 0x8000_0000
  {
    Signed(Unsigned(x) * Pow2(n))
  }

  /** `x >>> n` */
  function JsUshr(x: int, n: nat): (r: Word)
    requires n < 32
    ensures r == Unsigned(x) / Pow2(n)
  {
    DivShrinks(Unsigned(x), Pow2(n));
    Unsigned(x) / Pow2(n)
  }

  lemma DivShrinks(x: nat, p: nat)
    requires p >= 1
    ensures 0 <= x / p <= x
  {}
}
