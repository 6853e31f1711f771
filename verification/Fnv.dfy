/** scripts/simulate-blind-atomic-custody.js: hash32, 32-bit FNV-1a over UTF-16 code units. */
module Fnv {
  import opened JsNumbers
  import opened Texts

  const OFFSET_BASIS := 2166136261
  const PRIME := 16777619
  const PRIME_INVERSE := 899433627

  function HashStep(h: int, u: Unit): int {
    Imul(Xor(h, u), PRIME)
  }

  function HashFrom(h: int, t: Text): int
    decreases t
  {
    if t == [] then h else HashFrom(HashStep(h, t[0]), t[1..])
  }

  function Hash32(t: Text): int {
    ToUint32(HashFrom(OFFSET_BASIS, t))
  }

  method ComputeHash32(input: Text) returns (r: int)
    ensures r == Hash32(input) && 0 <= r < TWO32
  {
    var h := OFFSET_BASIS;
    for i := 0 to |input|
      invariant HashFrom(OFFSET_BASIS, input) == HashFrom(h, input[i..])
    {
      assert input[i..][1..] == input[i + 1..];
      h := Xor(h, input[i]);
      h := Imul(h, PRIME);
    }
    r := ToUint32(h);
  }

  lemma ImulPrimeValue(a: int)
    ensures ToUint32(Imul(a, PRIME)) == ToUint32(a) * PRIME % TWO32
  {
    ToUint32Small(PRIME);
    ToUint32OfInt32(ToUint32(a) * PRIME);
  }

  lemma PrimeCancels(x: int, y: int)
    requires 0 <= x < TWO32 && 0 <= y < TWO32
    ensures x * PRIME % TWO32 == y * PRIME % TWO32 <==> x == y
  {
    if x * PRIME % TWO32 == y * PRIME % TWO32 {
      CancelOdd(x, y, PRIME, PRIME_INVERSE);
    }
  }

  lemma ImulPrime(a: int, b: int)
    ensures ToUint32(Imul(a, PRIME)) == ToUint32(Imul(b, PRIME)) <==> ToUint32(a) == ToUint32(b)
  {
    ImulPrimeValue(a);
    ImulPrimeValue(b);
    PrimeCancels(ToUint32(a), ToUint32(b));
  }

  /** One step is a bijection of the 32-bit states ... */
  lemma HashStepInjective(g: int, h: int, u: Unit)
    ensures ToUint32(HashStep(g, u)) == ToUint32(HashStep(h, u)) <==> ToUint32(g) == ToUint32(h)
  {
    ImulPrime(Xor(g, u), Xor(h, u));
    XorUndoes(g, u);
    XorUndoes(h, u);
  }

  /** ... and injective in the code unit. */
  lemma HashStepSeparates(h: int, u: Unit, v: Unit)
    requires u != v
    ensures ToUint32(HashStep(h, u)) != ToUint32(HashStep(h, v))
  {
    ImulPrime(Xor(h, u), Xor(h, v));
    XorCommutes(h, u);
    XorCommutes(h, v);
    XorUndoes(u, h);
    XorUndoes(v, h);
    ToUint32Small(u);
    ToUint32Small(v);
  }

  lemma {:induction false} SuffixKeeps(g: int, h: int, suffix: Text)
    ensures ToUint32(HashFrom(g, suffix)) == ToUint32(HashFrom(h, suffix)) <==> ToUint32(g) == ToUint32(h)
    decreases suffix
  {
    if suffix != [] {
      SuffixKeeps(HashStep(g, suffix[0]), HashStep(h, suffix[0]), suffix[1..]);
      HashStepInjective(g, h, suffix[0]);
    }
  }

  lemma {:induction false} HashFromConcat(h: int, a: Text, b: Text)
    ensures HashFrom(h, a + b) == HashFrom(HashFrom(h, a), b)
    decreases a
  {
    if a == [] {
      assert a + b == b;
    } else {
      HashFromConcat(HashStep(h, a[0]), a[1..], b);
      assert (a + b)[1..] == a[1..] + b;
    }
  }

  /** A shared suffix keeps both equality and inequality of hashes. */
  lemma SharedSuffix(a: Text, b: Text, suffix: Text)
    ensures Hash32(a + suffix) == Hash32(b + suffix) <==> Hash32(a) == Hash32(b)
  {
    HashFromConcat(OFFSET_BASIS, a, suffix);
    HashFromConcat(OFFSET_BASIS, b, suffix);
    SuffixKeeps(HashFrom(OFFSET_BASIS, a), HashFrom(OFFSET_BASIS, b), suffix);
  }

  /** Strings of equal length that differ in exactly one code unit never collide. */
  lemma OneUnitNeverCollides(a: Text, i: nat, u: Unit)
    requires i < |a| && a[i] != u
    ensures Hash32(a) != Hash32(a[i := u])
  {
    var h := HashFrom(OFFSET_BASIS, a[..i]);
    var x, y := a[..i] + [a[i]], a[..i] + [u];
    HashFromConcat(OFFSET_BASIS, a[..i], [a[i]]);
    HashFromConcat(OFFSET_BASIS, a[..i], [u]);
    OneStep(h, a[i]);
    OneStep(h, u);
    HashStepSeparates(h, a[i], u);
    assert a == x + a[i + 1..] && a[i := u] == y + a[i + 1..];
    SharedSuffix(x, y, a[i + 1..]);
  }

  lemma OneStep(h: int, u: Unit)
    ensures HashFrom(h, [u]) == HashStep(h, u)
  {
    assert HashFrom(HashStep(h, u), [u][1..]) == HashStep(h, u);
  }

  lemma {:induction false} XorZero(a: nat, width: nat)
    requires a < Pow2(width)
    ensures XorBits(a, 0, width) == a
  {
    if width > 0 {
      XorZero(a / 2, width - 1);
    }
  }

  lemma StepValue(h: int, u: Unit, x: int)
    requires XorBits(ToUint32(h), ToUint32(u), 32) == x
    ensures ToUint32(HashStep(h, u)) == ToUint32(x * PRIME)
  {
    XorValue(h, u);
    ToUint32OfInt32(x * PRIME);
  }

  /** The published FNV-1a test value of "a". */
  lemma KnownHash()
    ensures Hash32([97]) == 0xE40C292C
  {
    OneStep(OFFSET_BASIS, 97);
    KnownXor();
    StepValue(OFFSET_BASIS, 97, 2166136228);
  }

  lemma KnownXor()
    ensures XorBits(2166136261, 97, 32) == 2166136228
  {
    assert Pow2(8) == 0x100;
    assert Pow2(16) == 0x1_0000;
    assert Pow2(24) == 0x100_0000;
    XorZero(16922939, 25);
    assert XorBits(33845879, 1, 26) == 33845878;
    assert XorBits(67691758, 3, 27) == 67691757;
    assert XorBits(135383516, 6, 28) == 135383514;
    assert XorBits(270767032, 12, 29) == 270767028;
    assert XorBits(541534065, 24, 30) == 541534057;
    assert XorBits(1083068130, 48, 31) == 1083068114;
    assert XorBits(2166136261, 97, 32) == 2166136228;
  }

  /** And that of "ab": the units are taken from the first to the last. */
  lemma KnownHashOfTwo()
    ensures Hash32([97, 98]) == 0x4D2505CA
  {
    KnownHash();
    var h := HashFrom(OFFSET_BASIS, [97]);
    assert [97, 98] == [97] + [98];
    HashFromConcat(OFFSET_BASIS, [97], [98]);
    OneStep(h, 98);
    SecondXor(0xE40C292C, 98);
    StepValue(h, 98, 0xE40C294E);
  }

  const HASH_A := Four(1, 1, 0, 0, Four(0, 0, 1, 0, Four(1, 0, 0, 1, Four(0, 0, 1, 0, Four(1, 1, 0, 0, Four(0, 0, 0, 0, Four(0, 1, 0, 0, Four(1, 1, 1, 0, End))))))))
  const LETTER_B := Four(0, 0, 1, 0, Four(0, 1, 1, 0, Four(0, 0, 0, 0, Four(0, 0, 0, 0, Four(0, 0, 0, 0, Four(0, 0, 0, 0, Four(0, 0, 0, 0, Four(0, 0, 0, 0, End))))))))
  const MIXED := Four(1, 1, 1, 0, Four(0, 1, 0, 0, Four(1, 0, 0, 1, Four(0, 0, 1, 0, Four(1, 1, 0, 0, Four(0, 0, 0, 0, Four(0, 1, 0, 0, Four(1, 1, 1, 0, End))))))))

  lemma WrittenHash()
    ensures Writes(HASH_A, 0xE40C292C)
  {
    assert Writes(Four(1, 1, 0, 0, Four(0, 0, 1, 0, Four(1, 0, 0, 1, Four(0, 0, 1, 0, Four(1, 1, 0, 0, Four(0, 0, 0, 0, Four(0, 1, 0, 0, Four(1, 1, 1, 0, End)))))))), 0xE40C292C);
  }

  lemma WrittenLetter()
    ensures Writes(LETTER_B, 98)
  {
    assert Writes(Four(0, 0, 1, 0, Four(0, 1, 1, 0, Four(0, 0, 0, 0, Four(0, 0, 0, 0, Four(0, 0, 0, 0, Four(0, 0, 0, 0, Four(0, 0, 0, 0, Four(0, 0, 0, 0, End)))))))), 98);
  }

  lemma WrittenMixed()
    ensures Writes(MIXED, 0xE40C294E)
  {
    assert Writes(Four(1, 1, 1, 0, Four(0, 1, 0, 0, Four(1, 0, 0, 1, Four(0, 0, 1, 0, Four(1, 1, 0, 0, Four(0, 0, 0, 0, Four(0, 1, 0, 0, Four(1, 1, 1, 0, End)))))))), 0xE40C294E);
  }

  lemma MixedBits()
    ensures XorOf(HASH_A, LETTER_B) == MIXED
  {
    assert XorOf(Four(1, 1, 0, 0, Four(0, 0, 1, 0, Four(1, 0, 0, 1, Four(0, 0, 1, 0, Four(1, 1, 0, 0, Four(0, 0, 0, 0, Four(0, 1, 0, 0, Four(1, 1, 1, 0, End)))))))), Four(0, 0, 1, 0, Four(0, 1, 1, 0, Four(0, 0, 0, 0, Four(0, 0, 0, 0, Four(0, 0, 0, 0, Four(0, 0, 0, 0, Four(0, 0, 0, 0, Four(0, 0, 0, 0, End))))))))) == Four(1, 1, 1, 0, Four(0, 1, 0, 0, Four(1, 0, 0, 1, Four(0, 0, 1, 0, Four(1, 1, 0, 0, Four(0, 0, 0, 0, Four(0, 1, 0, 0, Four(1, 1, 1, 0, End))))))));
  }

  lemma SecondBits() returns (p: Bits, q: Bits, r: Bits)
    ensures Writes(p, 0xE40C292C) && Writes(q, 98) && Writes(r, 0xE40C294E) && r == XorOf(p, q)
  {
    p, q, r := HASH_A, LETTER_B, MIXED;
    WrittenHash();
    WrittenLetter();
    WrittenMixed();
    MixedBits();
  }

  lemma SecondXor(a: nat, b: nat)
    requires a == 0xE40C292C && b == 98
    ensures XorBits(a, b, 32) == 0xE40C294E
  {
    var p, q, r := SecondBits();
    XorWord(p, q, r, a, b, 0xE40C294E);
  }
}
