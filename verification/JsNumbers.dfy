/** JavaScript's 32-bit integer operators on whole numbers, and rounding to a double. */
module JsNumbers {

  const TWO31 := 0x8000_0000
  const TWO32 := 0x1_0000_0000
  const TWO53 := 0x20_0000_0000_0000

  function ToUint32(n: int): (r: int)
    ensures 0 <= r < TWO32
  {
    n % TWO32
  }

  function ToInt32(n: int): (r: int)
    ensures -TWO31 <= r < TWO31
  {
    var u := ToUint32(n);
    if u < TWO31 then u else u - TWO32
  }

  /** The top bit is the sign. */
  lemma SignBit()
    ensures ToInt32(0x8000_0000) == -0x8000_0000 && ToInt32(0x7FFF_FFFF) == 0x7FFF_FFFF && ToInt32(-1) == -1
  {
  }

  lemma ToUint32OfInt32(n: int)
    ensures ToUint32(ToInt32(n)) == ToUint32(n)
  {
  }

  lemma ToUint32Small(n: int)
    requires 0 <= n < TWO32
    ensures ToUint32(n) == n
  {
  }

  lemma ToUint32Sum(a: int, b: int)
    ensures ToUint32(ToUint32(a) + b) == ToUint32(a + b)
  {
  }

  // ---------------------------------------------------------------- bitwise operators

  function Pow2(k: nat): (r: nat)
    ensures r >= 1
  {
    if k == 0 then 1 else 2 * Pow2(k - 1)
  }

  lemma Pow2Word()
    ensures Pow2(32) == TWO32
  {
    assert Pow2(8) == 0x100;
    assert Pow2(16) == 0x1_0000;
    assert Pow2(24) == 0x100_0000;
  }

  function XorBits(a: nat, b: nat, width: nat): nat {
    if width == 0 then 0 else (if a % 2 == b % 2 then 0 else 1) + 2 * XorBits(a / 2, b / 2, width - 1)
  }

  function OrBits(a: nat, b: nat, width: nat): nat {
    if width == 0 then 0 else (if a % 2 == 0 && b % 2 == 0 then 0 else 1) + 2 * OrBits(a / 2, b / 2, width - 1)
  }

  function Xor(a: int, b: int): int {
    ToInt32(XorBits(ToUint32(a), ToUint32(b), 32))
  }

  function Or(a: int, b: int): int {
    ToInt32(OrBits(ToUint32(a), ToUint32(b), 32))
  }

  /** a >>> k */
  function ShiftRight(a: int, k: nat): int {
    ToUint32(a) / Pow2(k)
  }

  function Imul(a: int, b: int): int {
    ToInt32(ToUint32(a) * ToUint32(b))
  }

  lemma {:induction false} XorBitsBound(a: nat, b: nat, width: nat)
    ensures XorBits(a, b, width) < Pow2(width)
  {
    if width > 0 {
      XorBitsBound(a / 2, b / 2, width - 1);
    }
  }

  lemma XorBitsStep(a: nat, highA: nat, b: nat, highB: nat, width: nat)
    requires a < 2 && b < 2 && width > 0
    ensures XorBits(a + 2 * highA, b + 2 * highB, width) == (if a == b then 0 else 1) + 2 * XorBits(highA, highB, width - 1)
  {
    LowBit(a, highA);
    LowBit(b, highB);
  }

  lemma LowBit(bit: nat, high: nat)
    requires bit < 2
    ensures (bit + 2 * high) % 2 == bit && (bit + 2 * high) / 2 == high
  {
  }

  lemma {:induction false} XorBitsUndoes(a: nat, b: nat, width: nat)
    requires a < Pow2(width)
    ensures XorBits(XorBits(a, b, width), b, width) == a
  {
    if width > 0 {
      XorBitsUndoes(a / 2, b / 2, width - 1);
      XorBitsStep(a % 2, a / 2, b % 2, b / 2, width);
      XorBitsStep(if a % 2 == b % 2 then 0 else 1, XorBits(a / 2, b / 2, width - 1), b % 2, b / 2, width);
    }
  }

  lemma {:induction false} XorBitsCommutes(a: nat, b: nat, width: nat)
    ensures XorBits(a, b, width) == XorBits(b, a, width)
  {
    if width > 0 {
      XorBitsCommutes(a / 2, b / 2, width - 1);
    }
  }

  lemma {:induction false} OrBitsCommutes(a: nat, b: nat, width: nat)
    ensures OrBits(a, b, width) == OrBits(b, a, width)
  {
    if width > 0 {
      OrBitsCommutes(a / 2, b / 2, width - 1);
    }
  }

  lemma XorValue(a: int, b: int)
    ensures ToUint32(Xor(a, b)) == XorBits(ToUint32(a), ToUint32(b), 32)
  {
    var x := XorBits(ToUint32(a), ToUint32(b), 32);
    XorBitsBound(ToUint32(a), ToUint32(b), 32);
    Pow2Word();
    ToUint32OfInt32(x);
    ToUint32Small(x);
  }

  /** Xor with the same operand twice is the identity, up to the signed reading. */
  lemma XorUndoes(a: int, b: int)
    ensures ToUint32(Xor(Xor(a, b), b)) == ToUint32(a)
  {
    XorValue(a, b);
    XorValue(Xor(a, b), b);
    Pow2Word();
    XorBitsUndoes(ToUint32(a), ToUint32(b), 32);
  }

  lemma XorCommutes(a: int, b: int)
    ensures Xor(a, b) == Xor(b, a)
  {
    XorBitsCommutes(ToUint32(a), ToUint32(b), 32);
  }

  lemma OrCommutes(a: int, b: int)
    ensures Or(a, b) == Or(b, a)
  {
    OrBitsCommutes(ToUint32(a), ToUint32(b), 32);
  }

  // ---------------------------------------------------------------- words written in bits

  /** Bits in groups of four, the lowest group outermost. */
  datatype Bits = End | Four(b3: nat, b2: nat, b1: nat, b0: nat, high: Bits)

  function ValueOf(b: Bits): nat {
    match b
    case End => 0
    case Four(b3, b2, b1, b0, high) => b0 + 2 * (b1 + 2 * (b2 + 2 * (b3 + 2 * ValueOf(high))))
  }

  function Length(b: Bits): nat {
    match b
    case End => 0
    case Four(_, _, _, _, high) => 4 + Length(high)
  }

  predicate Binary(b: Bits) {
    b.Four? ==> b.b3 < 2 && b.b2 < 2 && b.b1 < 2 && b.b0 < 2 && Binary(b.high)
  }

  function XorBit(a: nat, b: nat): nat {
    if a == b then 0 else 1
  }

  function OrBit(a: nat, b: nat): nat {
    if a == b == 0 then 0 else 1
  }

  function XorOf(a: Bits, b: Bits): Bits {
    match (a, b)
    case (Four(a3, a2, a1, a0, g), Four(b3, b2, b1, b0, h)) =>
      Four(XorBit(a3, b3), XorBit(a2, b2), XorBit(a1, b1), XorBit(a0, b0), XorOf(g, h))
    case _ => End
  }

  function OrOf(a: Bits, b: Bits): Bits {
    match (a, b)
    case (Four(a3, a2, a1, a0, g), Four(b3, b2, b1, b0, h)) =>
      Four(OrBit(a3, b3), OrBit(a2, b2), OrBit(a1, b1), OrBit(a0, b0), OrOf(g, h))
    case _ => End
  }

  lemma OrBitsStep(a: nat, highA: nat, b: nat, highB: nat, width: nat)
    requires a < 2 && b < 2 && width > 0
    ensures OrBits(a + 2 * highA, b + 2 * highB, width) == OrBit(a, b) + 2 * OrBits(highA, highB, width - 1)
  {
    LowBit(a, highA);
    LowBit(b, highB);
  }

  lemma XorTwo(a0: nat, a1: nat, p: nat, b0: nat, b1: nat, q: nat, width: nat)
    requires a0 < 2 && a1 < 2 && b0 < 2 && b1 < 2 && width >= 2
    ensures XorBits(a0 + 2 * (a1 + 2 * p), b0 + 2 * (b1 + 2 * q), width) == XorBit(a0, b0) + 2 * (XorBit(a1, b1) + 2 * XorBits(p, q, width - 2))
  {
    XorBitsStep(a1, p, b1, q, width - 1);
    XorBitsStep(a0, a1 + 2 * p, b0, b1 + 2 * q, width);
  }

  lemma XorFour(a0: nat, a1: nat, a2: nat, a3: nat, highA: nat, b0: nat, b1: nat, b2: nat, b3: nat, highB: nat, width: nat)
    requires a0 < 2 && a1 < 2 && a2 < 2 && a3 < 2 && b0 < 2 && b1 < 2 && b2 < 2 && b3 < 2 && width >= 4
    ensures XorBits(a0 + 2 * (a1 + 2 * (a2 + 2 * (a3 + 2 * highA))), b0 + 2 * (b1 + 2 * (b2 + 2 * (b3 + 2 * highB))), width)
         == XorBit(a0, b0) + 2 * (XorBit(a1, b1) + 2 * (XorBit(a2, b2) + 2 * (XorBit(a3, b3) + 2 * XorBits(highA, highB, width - 4))))
  {
    var p, q := a2 + 2 * (a3 + 2 * highA), b2 + 2 * (b3 + 2 * highB);
    XorTwo(a2, a3, highA, b2, b3, highB, width - 2);
    XorTwo(a0, a1, p, b0, b1, q, width);
  }

  lemma OrTwo(a0: nat, a1: nat, p: nat, b0: nat, b1: nat, q: nat, width: nat)
    requires a0 < 2 && a1 < 2 && b0 < 2 && b1 < 2 && width >= 2
    ensures OrBits(a0 + 2 * (a1 + 2 * p), b0 + 2 * (b1 + 2 * q), width) == OrBit(a0, b0) + 2 * (OrBit(a1, b1) + 2 * OrBits(p, q, width - 2))
  {
    OrBitsStep(a1, p, b1, q, width - 1);
    OrBitsStep(a0, a1 + 2 * p, b0, b1 + 2 * q, width);
  }

  lemma OrFour(a0: nat, a1: nat, a2: nat, a3: nat, highA: nat, b0: nat, b1: nat, b2: nat, b3: nat, highB: nat, width: nat)
    requires a0 < 2 && a1 < 2 && a2 < 2 && a3 < 2 && b0 < 2 && b1 < 2 && b2 < 2 && b3 < 2 && width >= 4
    ensures OrBits(a0 + 2 * (a1 + 2 * (a2 + 2 * (a3 + 2 * highA))), b0 + 2 * (b1 + 2 * (b2 + 2 * (b3 + 2 * highB))), width)
         == OrBit(a0, b0) + 2 * (OrBit(a1, b1) + 2 * (OrBit(a2, b2) + 2 * (OrBit(a3, b3) + 2 * OrBits(highA, highB, width - 4))))
  {
    var p, q := a2 + 2 * (a3 + 2 * highA), b2 + 2 * (b3 + 2 * highB);
    OrTwo(a2, a3, highA, b2, b3, highB, width - 2);
    OrTwo(a0, a1, p, b0, b1, q, width);
  }

  lemma XorCons(a: Bits, b: Bits, n: nat, m: nat, p: nat, q: nat, width: nat, v: nat)
    requires a.Four? && b.Four? && Binary(a) && Binary(b) && width >= 4
    requires n == a.b0 + 2 * (a.b1 + 2 * (a.b2 + 2 * (a.b3 + 2 * p))) && m == b.b0 + 2 * (b.b1 + 2 * (b.b2 + 2 * (b.b3 + 2 * q)))
    requires v == XorBits(p, q, width - 4)
    ensures XorBits(n, m, width) == XorBit(a.b0, b.b0) + 2 * (XorBit(a.b1, b.b1) + 2 * (XorBit(a.b2, b.b2) + 2 * (XorBit(a.b3, b.b3) + 2 * v)))
  {
    XorFour(a.b0, a.b1, a.b2, a.b3, p, b.b0, b.b1, b.b2, b.b3, q, width);
  }

  /** The operators work bit by bit. */
  lemma {:induction false} XorIs(a: Bits, b: Bits, n: nat, m: nat, width: nat)
    requires Binary(a) && Binary(b) && Length(a) == Length(b) == width && n == ValueOf(a) && m == ValueOf(b)
    ensures XorBits(n, m, width) == ValueOf(XorOf(a, b))
    decreases a
  {
    if a.Four? {
      var p, q, v := ValueOf(a.high), ValueOf(b.high), ValueOf(XorOf(a.high, b.high));
      XorIs(a.high, b.high, p, q, width - 4);
      XorCons(a, b, n, m, p, q, width, v);
    }
  }

  lemma OrCons(a: Bits, b: Bits, n: nat, m: nat, p: nat, q: nat, width: nat, v: nat)
    requires a.Four? && b.Four? && Binary(a) && Binary(b) && width >= 4
    requires n == a.b0 + 2 * (a.b1 + 2 * (a.b2 + 2 * (a.b3 + 2 * p))) && m == b.b0 + 2 * (b.b1 + 2 * (b.b2 + 2 * (b.b3 + 2 * q)))
    requires v == OrBits(p, q, width - 4)
    ensures OrBits(n, m, width) == OrBit(a.b0, b.b0) + 2 * (OrBit(a.b1, b.b1) + 2 * (OrBit(a.b2, b.b2) + 2 * (OrBit(a.b3, b.b3) + 2 * v)))
  {
    OrFour(a.b0, a.b1, a.b2, a.b3, p, b.b0, b.b1, b.b2, b.b3, q, width);
  }

  lemma {:induction false} OrIs(a: Bits, b: Bits, n: nat, m: nat, width: nat)
    requires Binary(a) && Binary(b) && Length(a) == Length(b) == width && n == ValueOf(a) && m == ValueOf(b)
    ensures OrBits(n, m, width) == ValueOf(OrOf(a, b))
    decreases a
  {
    if a.Four? {
      var p, q, v := ValueOf(a.high), ValueOf(b.high), ValueOf(OrOf(a.high, b.high));
      OrIs(a.high, b.high, p, q, width - 4);
      OrCons(a, b, n, m, p, q, width, v);
    }
  }

  /** `b` writes the word n. */
  predicate Writes(b: Bits, n: nat) {
    Binary(b) && Length(b) == 32 && ValueOf(b) == n
  }

  lemma XorWord(a: Bits, b: Bits, r: Bits, x: nat, y: nat, z: nat)
    requires Writes(a, x) && Writes(b, y) && Writes(r, z) && r == XorOf(a, b)
    ensures XorBits(x, y, 32) == z
  {
    XorIs(a, b, x, y, 32);
  }

  lemma OrWord(a: Bits, b: Bits, r: Bits, x: nat, y: nat, z: nat)
    requires Writes(a, x) && Writes(b, y) && Writes(r, z) && r == OrOf(a, b)
    ensures OrBits(x, y, 32) == z
  {
    OrIs(a, b, x, y, 32);
  }

  lemma {:induction false} OrBitsBound(a: nat, b: nat, width: nat)
    ensures OrBits(a, b, width) < Pow2(width)
  {
    if width > 0 {
      OrBitsBound(a / 2, b / 2, width - 1);
    }
  }

  lemma OrValue(a: int, b: int)
    ensures ToUint32(Or(a, b)) == OrBits(ToUint32(a), ToUint32(b), 32)
  {
    var x := OrBits(ToUint32(a), ToUint32(b), 32);
    OrBitsBound(ToUint32(a), ToUint32(b), 32);
    Pow2Word();
    ToUint32OfInt32(x);
    ToUint32Small(x);
  }

  lemma ImulValue(a: int, b: int)
    ensures ToUint32(Imul(a, b)) == ToUint32(a) * ToUint32(b) % TWO32
  {
    ToUint32OfInt32(ToUint32(a) * ToUint32(b));
  }

  // ---------------------------------------------------------------- odd multipliers

  lemma ModProduct(a: int, b: int)
    ensures (a % TWO32) * b % TWO32 == a * b % TWO32
  {
    var q := a / TWO32;
    assert a == q * TWO32 + a % TWO32;
    assert a * b == (a % TWO32) * b + (q * b) * TWO32;
    ModShift((a % TWO32) * b, q * b);
  }

  lemma ModShift(n: int, k: int)
    ensures (n + k * TWO32) % TWO32 == n % TWO32
  {
  }

  /** A number with an inverse modulo 2^32 can be cancelled. */
  lemma CancelOdd(a: int, b: int, p: int, inverse: int)
    requires p * inverse % TWO32 == 1
    requires a * p % TWO32 == b * p % TWO32
    ensures a % TWO32 == b % TWO32
  {
    Recovered(a, p, inverse);
    Recovered(b, p, inverse);
  }

  lemma Recovered(a: int, p: int, inverse: int)
    requires p * inverse % TWO32 == 1
    ensures (a * p % TWO32) * inverse % TWO32 == a % TWO32
  {
    ModProduct(a * p, inverse);
    assert a * p * inverse == (p * inverse) * a;
    ModProduct(p * inverse, a);
    assert 1 * a == a;
  }

  // ---------------------------------------------------------------- doubles

  /** The spacing of doubles around n. */
  function Ulp(n: nat): (u: nat)
    ensures u >= 1
  {
    if n < TWO53 then 1 else 2 * Ulp(n / 2)
  }

  /** The double nearest to n, ties to even. */
  function ToDouble(n: nat): nat {
    var u := Ulp(n);
    var low := n / u;
    var rest := n % u;
    if 2 * rest < u || (2 * rest == u && low % 2 == 0) then low * u else (low + 1) * u
  }

  lemma ToDoubleExact(n: nat)
    requires n <= TWO53
    ensures ToDouble(n) == n
  {
    assert n == TWO53 ==> Ulp(n) == 2;
  }

  lemma {:induction false} UlpBound(n: nat)
    requires n >= TWO53
    ensures Ulp(n) * (TWO53 / 2) <= n
  {
    if n / 2 >= TWO53 {
      UlpBound(n / 2);
    } else {
      assert Ulp(n) == 2;
    }
  }

  lemma ToDoubleError(n: nat)
    ensures 2 * ToDouble(n) <= 2 * n + Ulp(n)
  {
    var u := Ulp(n);
    var low, rest := n / u, n % u;
    assert n == low * u + rest;
    assert (low + 1) * u == low * u + u;
  }

  /** Rounding a fraction of a representable range stays below its end. */
  lemma ToDoubleBelow(n: nat, max: nat)
    requires max >= 1 && n <= TWO32 * max - max
    ensures ToDouble(n) < TWO32 * max
  {
    ToDoubleError(n);
    if n < TWO53 {
      ToDoubleExact(n);
    } else {
      UlpBound(n);
    }
  }

  lemma {:induction false} UlpIs(n: nat, e: nat)
    requires e >= 1 && TWO53 / 2 * Pow2(e) <= n < TWO53 * Pow2(e)
    ensures Ulp(n) == Pow2(e)
  {
    if e == 1 {
      assert Ulp(n / 2) == 1;
    } else {
      HalfRange(n, Pow2(e - 1));
      UlpIs(n / 2, e - 1);
    }
  }

  lemma HalfRange(n: nat, u: nat)
    requires TWO53 / 2 * (2 * u) <= n < TWO53 * (2 * u)
    ensures TWO53 / 2 * u <= n / 2 < TWO53 * u
  {
  }

  lemma DivideIs(n: nat, d: nat, q: nat, r: nat)
    requires n == q * d + r && r < d
    ensures n / d == q && n % d == r
  {
    var q', r' := n / d, n % d;
    assert n == q' * d + r';
    if q > q' {
      Apart(q, q', d);
    } else if q < q' {
      Apart(q', q, d);
    }
  }

  lemma Apart(a: nat, b: nat, d: nat)
    requires a > b
    ensures a * d >= b * d + d
  {
    assert a * d == b * d + d + (a - b - 1) * d;
    assert (a - b - 1) * d >= 0;
  }

  /** `rd` rounds reals to doubles: it keeps the order, doubles stay as they are, and whole numbers up to 2^53 are doubles. */
  ghost predicate IsRounding(rd: real -> real) {
    && (forall a, b | a <= b :: rd(a) <= rd(b))
    && (forall a {:trigger rd(rd(a))} :: rd(rd(a)) == rd(a))
    && (forall x: real | 0.0 <= x <= TWO53 as real && x == x.Floor as real :: rd(x) == x)
  }
}
