/** The three mulberry32 generators of the repository, with unbounded, unsigned and signed state. */
module Mulberry {
  import opened JsNumbers

  const INCREMENT := 0x6D2B79F5
  const INCREMENT_INVERSE := 3696798301

  function Stir(state: int): int {
    Imul(Xor(state, ShiftRight(state, 15)), Or(state, 1))
  }

  function Fold(t: int): int {
    Xor(t, t + Imul(Xor(t, ShiftRight(t, 7)), Or(t, 61)))
  }

  function Finish(t: int): (u: int)
    ensures 0 <= u < TWO32
  {
    ToUint32(Xor(t, ShiftRight(t, 14)))
  }

  /** The numerator of the draw, over 2^32, as the first two generators mix it. */
  function Mix(state: int): (u: int)
    ensures 0 <= u < TWO32
  {
    Finish(Fold(Stir(state)))
  }

  // The same two steps with the operands as the renderer writes them.

  function StirSwapped(state: int): int {
    Imul(Xor(state, ShiftRight(state, 15)), Or(1, state))
  }

  function FoldSwapped(t: int): int {
    Xor(t + Imul(Xor(t, ShiftRight(t, 7)), Or(61, t)), t)
  }

  function MixSwapped(state: int): int {
    Finish(FoldSwapped(StirSwapped(state)))
  }

  // The state after n draws.

  function UnboundedState(seed: int, n: nat): (s: nat) {
    if n == 0 then ToUint32(seed) else ToDouble(UnboundedState(seed, n - 1) + INCREMENT)
  }

  function UnsignedState(seed: int, n: nat): int {
    if n == 0 then ToUint32(seed) else ToUint32(UnsignedState(seed, n - 1) + INCREMENT)
  }

  function SignedState(seed: int, n: nat): int {
    if n == 0 then seed else ToInt32(ToInt32(SignedState(seed, n - 1)) + INCREMENT)
  }

  lemma MixSwappedSame(state: int)
    ensures MixSwapped(state) == Mix(state)
  {
    StirSwappedSame(state);
    FoldSwappedSame(Stir(state));
  }

  lemma StirSwappedSame(state: int)
    ensures StirSwapped(state) == Stir(state)
  {
    OrCommutes(1, state);
  }

  lemma FoldSwappedSame(t: int)
    ensures FoldSwapped(t) == Fold(t)
  {
    OrCommutes(61, t);
    XorCommutes(t, t + Imul(Xor(t, ShiftRight(t, 7)), Or(t, 61)));
  }

  /** Mixing sees the state modulo 2^32 only. */
  lemma MixCongruent(a: int, b: int)
    requires ToUint32(a) == ToUint32(b)
    ensures Mix(a) == Mix(b)
  {
  }

  lemma {:induction false} UnsignedStateIs(seed: int, n: nat)
    ensures UnsignedState(seed, n) == ToUint32(seed + n * INCREMENT)
  {
    if n > 0 {
      UnsignedStateIs(seed, n - 1);
      ToUint32Sum(seed + (n - 1) * INCREMENT, INCREMENT);
    }
  }

  lemma {:induction false} SignedStateIs(seed: int, n: nat)
    ensures ToUint32(SignedState(seed, n)) == ToUint32(seed + n * INCREMENT)
  {
    if n > 0 {
      SignedStateIs(seed, n - 1);
      var s := SignedState(seed, n - 1);
      ToUint32OfInt32(s);
      ToUint32Sum(ToInt32(s), INCREMENT);
      ToUint32OfInt32(ToInt32(s) + INCREMENT);
      ToUint32Sum(seed + (n - 1) * INCREMENT, INCREMENT);
    }
  }

  lemma {:induction false} UnboundedStateIs(seed: int, n: nat)
    requires ToUint32(seed) + n * INCREMENT <= TWO53
    ensures UnboundedState(seed, n) == ToUint32(seed) + n * INCREMENT
  {
    if n > 0 {
      UnboundedStateIs(seed, n - 1);
      ToDoubleExact(ToUint32(seed) + n * INCREMENT);
    }
  }

  lemma StatesCongruent(a: int, b: int, c: int, n: nat)
    requires ToUint32(a) == ToUint32(b) == ToUint32(c)
    requires ToUint32(a) + n * INCREMENT <= TWO53
    ensures ToUint32(UnboundedState(a, n)) == ToUint32(UnsignedState(b, n)) == ToUint32(SignedState(c, n))
  {
    UnboundedStateIs(a, n);
    UnsignedStateIs(b, n);
    SignedStateIs(c, n);
    var k := n * INCREMENT;
    ToUint32Sum(a, k);
    ToUint32Sum(b, k);
    ToUint32Sum(c, k);
    ToUint32Small(UnsignedState(b, n));
  }

  /** From seeds equal modulo 2^32 the three generators draw the same numbers,
      for as long as the unbounded state stays within 2^53. */
  lemma SameStream(a: int, b: int, c: int, n: nat)
    requires ToUint32(a) == ToUint32(b) == ToUint32(c)
    requires ToUint32(a) + n * INCREMENT <= TWO53
    ensures Mix(UnboundedState(a, n)) == Mix(UnsignedState(b, n)) == MixSwapped(SignedState(c, n))
  {
    StatesCongruent(a, b, c, n);
    var p, q, r := UnboundedState(a, n), UnsignedState(b, n), SignedState(c, n);
    MixSwappedSame(r);
    MixCongruent(p, q);
    MixCongruent(q, r);
  }

  // ---------------------------------------------------------------- past 2^53

  /** Between 2^53 and 2^54 doubles are even, and odd sums go to the multiple of 4 ... */
  lemma RoundSpacing2(t: nat)
    requires TWO53 <= t < 2 * TWO53
    ensures ToDouble(t) == if t % 4 == 1 then t - 1 else if t % 4 == 3 then t + 1 else t
  {
    assert Ulp(t) == 2;
  }

  /** ... and up to 2^55 they are multiples of 4. */
  lemma RoundSpacing4(t: nat)
    requires 2 * TWO53 <= t < 4 * TWO53 && t % 4 == 1
    ensures ToDouble(t) == t - 1
  {
    assert Ulp(t / 4) == 1;
    assert t / 2 / 2 == t / 4;
    assert Ulp(t / 2) == 2;
    assert Ulp(t) == 4;
  }

  /** How far the state is off, k draws after the first sum past 2^53. */
  function Drift(first: int, k: nat): int {
    match first % 4
    case 0 => 0 - k
    case 1 => -1 - k
    case 2 => if k == 0 then 0 else 2 - k
    case _ => 1 - k
  }

  /** The sum of the n-th draw, without rounding. */
  function ExactSum(seed: int, n: nat): int {
    ToUint32(seed) + n * INCREMENT
  }

  /** Draw n is the first whose sum is past 2^53. */
  predicate FirstPast(seed: int, n: nat) {
    n >= 1 && ExactSum(seed, n - 1) <= TWO53 < ExactSum(seed, n)
  }

  lemma LaterSum(seed: int, n: nat, k: nat)
    ensures ExactSum(seed, n + k) == ExactSum(seed, n) + k * INCREMENT
  {
  }

  /** Once the state is a multiple of 4, every step up to 2^55 falls short by one. */
  lemma RoundDown(state: nat)
    requires state % 4 == 0 && TWO53 <= state + INCREMENT < 4 * TWO53
    ensures ToDouble(state + INCREMENT) == state + INCREMENT - 1
  {
    var t := state + INCREMENT;
    if t < 2 * TWO53 {
      RoundSpacing2(t);
    } else {
      RoundSpacing4(t);
    }
  }

  /** What the first state past 2^53 is modulo 4, and every later one. */
  function Residue(first: int, k: nat): int {
    if k == 0 && first % 4 == 2 then 2 else 0
  }

  lemma FirstStep(first: nat)
    requires TWO53 < first <= TWO53 + INCREMENT
    ensures ToDouble(first) == first + Drift(first, 0) && ToDouble(first) % 4 == Residue(first, 0)
  {
    RoundSpacing2(first);
  }

  lemma SecondStep(first: nat, state: nat)
    requires TWO53 < first <= TWO53 + INCREMENT && state == first + Drift(first, 0)
    ensures ToDouble(state + INCREMENT) == first + INCREMENT + Drift(first, 1)
  {
    var t := state + INCREMENT;
    assert t % 4 == if first % 4 == 2 then 3 else 1;
    RoundSpacing2(t);
  }

  lemma LaterStep(first: nat, k: nat, sum: nat, state: nat)
    requires k >= 2 && TWO53 < first && sum == first + k * INCREMENT < 4 * TWO53
    requires state == sum - INCREMENT + Drift(first, k - 1) && state % 4 == 0
    ensures ToDouble(state + INCREMENT) == sum + Drift(first, k)
  {
    RoundDown(state);
  }

  lemma {:induction false} DriftResidue(first: int, k: nat)
    ensures (first + k * INCREMENT + Drift(first, k)) % 4 == Residue(first, k)
  {
    var q := INCREMENT / 4;
    assert INCREMENT == 4 * q + 1;
    assert first + k * INCREMENT + Drift(first, k) == first + k + Drift(first, k) + 4 * (k * q);
  }

  lemma {:induction false} DriftedState(seed: int, n: nat, k: nat)
    requires FirstPast(seed, n) && ExactSum(seed, n + k) < 4 * TWO53
    ensures UnboundedState(seed, n + k) == ExactSum(seed, n + k) + Drift(ExactSum(seed, n), k)
  {
    var first := ExactSum(seed, n);
    LaterSum(seed, n, k);
    if k == 0 {
      UnboundedStateIs(seed, n - 1);
      FirstStep(first);
    } else {
      LaterSum(seed, n, k - 1);
      DriftedState(seed, n, k - 1);
      DriftResidue(first, k - 1);
      var state := UnboundedState(seed, n + k - 1);
      if k == 1 {
        SecondStep(first, state);
      } else {
        LaterStep(first, k, ExactSum(seed, n + k), state);
      }
    }
  }

  /** Which draws after the first sum past 2^53 still start from the same state modulo 2^32. */
  predicate Agrees(first: int, k: nat) {
    match first % 4
    case 0 => k == 0
    case 1 => false
    case 2 => k == 0 || k == 2
    case _ => k == 1
  }

  /** Past 2^53 and up to 2^55 the unbounded state is off by its drift, and agrees modulo 2^32 with the wrapped ones
      at no more than two draws, told by the first sum past 2^53 modulo 4. */
  lemma PastExact(seed: int, n: nat, k: nat)
    requires FirstPast(seed, n) && ExactSum(seed, n + k) < 4 * TWO53
    ensures UnboundedState(seed, n + k) == ExactSum(seed, n + k) + Drift(ExactSum(seed, n), k)
    ensures ToUint32(UnboundedState(seed, n + k)) == UnsignedState(seed, n + k) <==> Agrees(ExactSum(seed, n), k)
  {
    DriftedState(seed, n, k);
    LaterSum(seed, n, k);
    UnsignedStateIs(seed, n + k);
    ToUint32Sum(seed, (n + k) * INCREMENT);
    var drift := Drift(ExactSum(seed, n), k);
    SmallOffset(ExactSum(seed, n + k), drift);
  }

  lemma SmallOffset(n: int, offset: int)
    requires -TWO32 < offset < TWO32
    ensures ToUint32(n + offset) == ToUint32(n) <==> offset == 0
  {
  }

  // ---------------------------------------------------------------- the binades after that

  /** The multiple of the spacing u that is nearest to the increment. */
  function StepOf(u: nat): nat
    requires u >= 1
  {
    INCREMENT / u * u + if 2 * (INCREMENT % u) > u then u else 0
  }

  /** The increment is odd, so it never lies halfway between multiples of a larger power of two. */
  lemma NoTie(u: nat)
    requires u >= 1 && u % 4 == 0
    ensures 2 * (INCREMENT % u) != u
  {
    var v, q, r := u / 4, INCREMENT / u, INCREMENT % u;
    assert u == 4 * v;
    assert INCREMENT == q * u + r;
    assert q * u == 4 * (q * v);
    assert r % 2 == 1;
  }

  lemma NearestSum(m: nat, q: nat, u: nat, r: nat, up: bool)
    ensures m * u + q * u + r == (m + q) * u + r
    ensures (if up then (m + q + 1) * u else (m + q) * u) == m * u + (q * u + if up then u else 0)
  {
  }

  lemma Quotient(n: nat, u: nat) returns (q: nat, r: nat)
    requires u >= 1
    ensures q == n / u && r == n % u && n == q * u + r && r < u
  {
    q, r := n / u, n % u;
  }

  /** From a multiple of the spacing one draw moves by the nearest multiple. */
  lemma StepLaw(state: nat, m: nat, u: nat)
    requires u >= 1 && u % 4 == 0 && state == m * u && Ulp(state + INCREMENT) == u
    ensures ToDouble(state + INCREMENT) == state + StepOf(u)
  {
    var q, r := Quotient(INCREMENT, u);
    NoTie(u);
    NearestSum(m, q, u, r, 2 * r > u);
    DivideIs(state + INCREMENT, u, m + q, r);
    Rounded(state + INCREMENT, u, m + q, r);
  }

  lemma Rounded(n: nat, u: nat, low: nat, rest: nat)
    requires Ulp(n) == u && n / u == low && n % u == rest && 2 * rest != u
    ensures ToDouble(n) == if 2 * rest > u then (low + 1) * u else low * u
  {
  }

  /** The doubles that are multiples of u = 2^e and at least 2^52 u, with room for one more increment below 2^53 u. */
  predicate InBinade(state: nat, e: nat) {
    state % Pow2(e) == 0 && TWO53 / 2 * Pow2(e) <= state && state + INCREMENT < TWO53 * Pow2(e)
  }

  lemma Pow2ByFour(e: nat)
    requires e >= 2
    ensures Pow2(e) % 4 == 0
  {
    assert Pow2(e) == 2 * Pow2(e - 1) == 4 * Pow2(e - 2);
  }

  lemma BinadeStep(state: nat, e: nat)
    requires e >= 2 && InBinade(state, e)
    ensures ToDouble(state + INCREMENT) == state + StepOf(Pow2(e))
    ensures (state + StepOf(Pow2(e))) % Pow2(e) == 0
  {
    var u := Pow2(e);
    var m := state / u;
    assert state == m * u + state % u;
    Pow2ByFour(e);
    UlpIs(state + INCREMENT, e);
    StepLaw(state, m, u);
    StillMultiple(m, u);
  }

  lemma StillMultiple(m: nat, u: nat)
    requires u >= 1
    ensures (m * u + StepOf(u)) % u == 0
  {
    var q := INCREMENT / u + if 2 * (INCREMENT % u) > u then 1 else 0;
    assert StepOf(u) == q * u;
    assert (m + q) * u == m * u + q * u;
    DivideIs(m * u + StepOf(u), u, m + q, 0);
  }

  /** k steps, one after the other. */
  function Steps(k: nat, step: nat): nat {
    if k == 0 then 0 else Steps(k - 1, step) + step
  }

  lemma {:induction false} StepsAre(k: nat, step: nat)
    ensures Steps(k, step) == k * step
  {
    if k > 0 {
      StepsAre(k - 1, step);
      assert k * step == (k - 1) * step + step;
    }
  }

  /** The multiples of u from `low` on, with room for one more increment below `limit`. */
  predicate Room(state: nat, u: nat, low: nat, limit: nat)
    requires u >= 1
  {
    state % u == 0 && low <= state && state + INCREMENT < limit
  }

  /** From a state in that range the next one is one step on, and a multiple again. */
  ghost predicate Moves(f: nat -> nat, i: nat, u: nat, step: nat, low: nat, limit: nat)
    requires u >= 1
  {
    Room(f(i), u, low, limit) ==> f(i + 1) == f(i) + step && f(i + 1) % u == 0
  }

  lemma {:induction false} StepsOn(f: nat -> nat, n: nat, k: nat, u: nat, step: nat, low: nat, limit: nat)
    requires u >= 1 && forall i: nat :: Moves(f, i, u, step, low, limit)
    requires f(n) % u == 0 && low <= f(n) && (k >= 1 ==> f(n) + Steps(k - 1, step) + INCREMENT < limit)
    ensures f(n + k) == f(n) + Steps(k, step) && f(n + k) % u == 0
  {
    if k > 0 {
      StepsOn(f, n, k - 1, u, step, low, limit);
      assert Moves(f, n + k - 1, u, step, low, limit);
      assert Room(f(n + k - 1), u, low, limit);
    }
  }

  function States(seed: int): nat -> nat {
    (i: nat) => UnboundedState(seed, i)
  }

  lemma StateMoves(seed: int, i: nat, e: nat)
    requires e >= 2
    ensures Moves(States(seed), i, Pow2(e), StepOf(Pow2(e)), TWO53 / 2 * Pow2(e), TWO53 * Pow2(e))
  {
    UnboundedNext(seed, i);
    if InBinade(UnboundedState(seed, i), e) {
      BinadeStep(UnboundedState(seed, i), e);
    }
  }

  /** Through each binade the unbounded generator moves by one constant step. */
  lemma Marches(seed: int, n: nat, k: nat, e: nat, step: nat)
    requires e >= 2 && step == StepOf(Pow2(e)) && UnboundedState(seed, n) % Pow2(e) == 0
    requires TWO53 / 2 * Pow2(e) <= UnboundedState(seed, n)
    requires k >= 1 ==> UnboundedState(seed, n) + (k - 1) * step + INCREMENT < TWO53 * Pow2(e)
    ensures UnboundedState(seed, n + k) == UnboundedState(seed, n) + k * step
  {
    StepsAre(k, step);
    if k >= 1 {
      StepsAre(k - 1, step);
    }
    var u, low, limit := Pow2(e), TWO53 / 2 * Pow2(e), TWO53 * Pow2(e);
    forall i: nat ensures Moves(States(seed), i, u, step, low, limit) {
      StateMoves(seed, i, e);
    }
    StepsOn(States(seed), n, k, u, step, low, limit);
  }

  lemma UnboundedNext(seed: int, n: nat)
    ensures UnboundedState(seed, n + 1) == ToDouble(UnboundedState(seed, n) + INCREMENT)
  {
  }

  lemma OffsetIff(x: int, offset: int)
    ensures ToUint32(x + offset) == ToUint32(x) <==> ToUint32(offset) == 0
  {
  }

  /** So there the states agree modulo 2^32 exactly when what they were off by and what each step misses or adds cancel. */
  lemma MarchAgreesIff(seed: int, n: nat, k: nat, e: nat, step: nat)
    requires e >= 2 && step == StepOf(Pow2(e)) && UnboundedState(seed, n) % Pow2(e) == 0
    requires TWO53 / 2 * Pow2(e) <= UnboundedState(seed, n)
    requires k >= 1 ==> UnboundedState(seed, n) + (k - 1) * step + INCREMENT < TWO53 * Pow2(e)
    ensures ToUint32(UnboundedState(seed, n + k)) == UnsignedState(seed, n + k) <==>
            ToUint32(UnboundedState(seed, n) - ExactSum(seed, n) + k * step - k * INCREMENT) == 0
  {
    Marches(seed, n, k, e, step);
    UnsignedStateIs(seed, n + k);
    ToUint32Sum(seed, (n + k) * INCREMENT);
    LaterSum(seed, n, k);
    OffsetIff(ExactSum(seed, n + k), UnboundedState(seed, n) - ExactSum(seed, n) + k * step - k * INCREMENT);
  }

  /** Where doubles are 2^32 or more apart the increment is rounded away: the generator draws one number for ever. */
  lemma StandsStill(seed: int, n: nat, k: nat, e: nat)
    requires e >= 32 && InBinade(UnboundedState(seed, n), e)
    ensures UnboundedState(seed, n + k) == UnboundedState(seed, n)
  {
    NoStep(e);
    assert k * 0 == 0 && (k - 1) * 0 == 0;
    Marches(seed, n, k, e, 0);
  }

  lemma {:induction false} NoStep(e: nat)
    requires e >= 32
    ensures Pow2(e) >= TWO32 && StepOf(Pow2(e)) == 0
  {
    if e == 32 {
      Pow2Word();
    } else {
      NoStep(e - 1);
    }
    NoStepOf(Pow2(e));
  }

  lemma NoStepOf(u: nat)
    requires u >= TWO32
    ensures StepOf(u) == 0
  {
    DivideIs(INCREMENT, u, 0, INCREMENT);
  }

  lemma StepOfEight()
    ensures Pow2(3) == 8 && StepOf(8) == INCREMENT + 3
  {
    assert Pow2(1) == 2 && Pow2(2) == 4;
  }

  const LAST_BELOW := 36028795197573180
  const FIRST_ABOVE := 36028797029138992

  lemma Crossing()
    ensures ToDouble(LAST_BELOW + INCREMENT) == FIRST_ABOVE
  {
    var n := LAST_BELOW + INCREMENT;
    StepOfEight();
    UlpIs(n, 3);
    Rounded(n, 8, n / 8, n % 8);
  }

  lemma SumsOfOne(seed: int, n: nat, k: nat)
    requires seed == 1 && n == 4917759 && k == 14753276
    ensures FirstPast(seed, n) && ExactSum(seed, n) % 4 == 0
    ensures ExactSum(seed, n + k) == LAST_BELOW + k < 4 * TWO53
    ensures ExactSum(seed, n + k + 1) == FIRST_ABOVE + 14753277
  {
  }

  lemma AfterCrossing(seed: int, n: nat, k: nat)
    requires seed == 1 && n == 4917759 && k == 14753276
    ensures UnboundedState(seed, n + k + 1) == FIRST_ABOVE
  {
    SumsOfOne(seed, n, k);
    DriftedState(seed, n, k);
    UnboundedNext(seed, n + k);
    Crossing();
  }

  lemma MarchOfOne(m: nat, step: nat)
    requires m == 4917759 && step == INCREMENT + 3
    ensures FIRST_ABOVE % 8 == 0 && TWO53 / 2 * 8 <= FIRST_ABOVE
    ensures FIRST_ABOVE + (m - 1) * step + INCREMENT < TWO53 * 8
    ensures -14753277 + m * step - m * INCREMENT == 0
  {
  }

  /** So agreement can recur: from seed 1 the first sum past 2^53 is that of draw 4917759, a multiple of 4, after which
      the generators part, and at draw 24588795 they agree again. */
  lemma AgreesAgain(seed: int, n: nat, k: nat, m: nat)
    requires seed == 1 && n == 4917759 && k == 14753276 && m == 4917759
    ensures FirstPast(seed, n) && ExactSum(seed, n) % 4 == 0
    ensures ToUint32(UnboundedState(seed, n + k + 1 + m)) == UnsignedState(seed, n + k + 1 + m)
  {
    SumsOfOne(seed, n, k);
    AfterCrossing(seed, n, k);
    StepOfEight();
    MarchOfOne(m, INCREMENT + 3);
    MarchAgreesIff(seed, n + k + 1, m, 3, INCREMENT + 3);
  }

  lemma OffsetCongruent(seed: int, x: int, y: int)
    ensures ToUint32(seed + x) == ToUint32(seed + y) <==> ToUint32(x) == ToUint32(y)
  {
    ToUint32Sum(x, seed);
    ToUint32Sum(y, seed);
    ToUint32Sum(seed + x, -seed);
    ToUint32Sum(seed + y, -seed);
  }

  lemma MultiplesCongruent(i: int, j: int)
    ensures ToUint32(i * INCREMENT) == ToUint32(j * INCREMENT) <==> ToUint32(i) == ToUint32(j)
  {
    ModProduct(i, INCREMENT);
    ModProduct(j, INCREMENT);
    if ToUint32(i * INCREMENT) == ToUint32(j * INCREMENT) {
      CancelOdd(i, j, INCREMENT, INCREMENT_INVERSE);
    }
  }

  /** The state modulo 2^32 visits every value before it repeats: it recurs exactly every 2^32 draws. */
  lemma FullPeriod(seed: int, i: nat, j: nat)
    ensures UnsignedState(seed, i) == UnsignedState(seed, j) <==> i % TWO32 == j % TWO32
  {
    UnsignedStateIs(seed, i);
    UnsignedStateIs(seed, j);
    var x, y := i * INCREMENT, j * INCREMENT;
    OffsetCongruent(seed, x, y);
    MultiplesCongruent(i, j);
  }

  /** Rng.int: Math.floor(next() * max), the product rounded to a double. */
  function IntBelow(u: int, max: nat): nat
    requires 0 <= u < TWO32
  {
    ToDouble(u * max) / TWO32
  }

  lemma BelowRange(u: int, max: nat)
    requires 0 <= u < TWO32
    ensures 0 <= u * max <= TWO32 * max - max
  {
    NonNegative(u, max);
    NonNegative(TWO32 - 1 - u, max);
    assert (TWO32 - 1 - u) * max == TWO32 * max - max - u * max;
  }

  lemma NonNegative(a: int, b: int)
    requires a >= 0 && b >= 0
    ensures a * b >= 0
  {
  }

  /** Rounding never lifts a draw up to the bound. */
  lemma IntInRange(u: int, max: nat)
    requires 0 <= u < TWO32 && max >= 1
    ensures 0 <= IntBelow(u, max) < max
  {
    BelowRange(u, max);
    var n := u * max;
    ToDoubleBelow(n, max);
  }

  /** For bounds up to 2^21 the rounding is exact. */
  lemma IntExact(u: int, max: nat)
    requires 0 <= u < TWO32 && max <= 0x20_0000
    ensures IntBelow(u, max) == u * max / TWO32
  {
    BelowRange(u, max);
    var n := u * max;
    ToDoubleExact(n);
  }
}
