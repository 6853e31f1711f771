/** Two draws of mulberry32 worked out bit by bit, so that the shifts, masks and operators of the mixing are known ones. */
module KnownDraws {
  import opened JsNumbers
  import opened Mulberry
  import opened Shuffling

  lemma Shifts()
    ensures Pow2(15) == 0x8000 && Pow2(7) == 0x80 && Pow2(14) == 0x4000
  {
    assert Pow2(7) == 0x80;
    assert Pow2(11) == 0x800;
    assert Pow2(14) == 0x4000;
  }

  lemma StirValue(s: int, x: nat, o: nat, t: nat)
    requires 0 <= s < TWO32 && Pow2(15) == 0x8000
    requires XorBits(s, s / 0x8000, 32) == x && OrBits(s, 1, 32) == o && x * o % TWO32 == t
    ensures ToUint32(Stir(s)) == t
  {
    ToUint32Small(s);
    ToUint32Small(1);
    ToUint32Small(s / 0x8000);
    XorValue(s, s / 0x8000);
    OrValue(s, 1);
    ImulValue(Xor(s, ShiftRight(s, 15)), Or(s, 1));
  }

  lemma FoldValue(t': int, t: nat, x7: nat, o61: nat, p: nat, sum: nat, fold: nat)
    requires ToUint32(t') == t && Pow2(7) == 0x80
    requires XorBits(t, t / 0x80, 32) == x7 && OrBits(t, 61, 32) == o61 && x7 * o61 % TWO32 == p && (t + p) % TWO32 == sum
    requires XorBits(t, sum, 32) == fold
    ensures ToUint32(Fold(t')) == fold
  {
    var product := Imul(Xor(t', ShiftRight(t', 7)), Or(t', 61));
    ProductValue(t', t, x7, o61, p);
    SumIs(t', product, t, p, sum);
    FoldIs(t', product, t, sum);
  }

  lemma SumIs(a: int, b: int, t: nat, p: nat, sum: nat)
    requires ToUint32(a) == t && ToUint32(b) == p && (t + p) % TWO32 == sum
    ensures ToUint32(a + b) == sum
  {
    SumValue(a, b);
  }

  lemma FoldIs(t': int, product: int, t: nat, sum: nat)
    requires product == Imul(Xor(t', ShiftRight(t', 7)), Or(t', 61)) && ToUint32(t') == t && ToUint32(t' + product) == sum
    ensures ToUint32(Fold(t')) == XorBits(t, sum, 32)
  {
    XorValue(t', t' + product);
  }

  lemma ProductValue(t': int, t: nat, x7: nat, o61: nat, p: nat)
    requires ToUint32(t') == t && Pow2(7) == 0x80
    requires XorBits(t, t / 0x80, 32) == x7 && OrBits(t, 61, 32) == o61 && x7 * o61 % TWO32 == p
    ensures ToUint32(Imul(Xor(t', ShiftRight(t', 7)), Or(t', 61))) == p
  {
    ToUint32Small(61);
    ToUint32Small(t / 0x80);
    XorValue(t', t / 0x80);
    OrValue(t', 61);
    ImulValue(Xor(t', ShiftRight(t', 7)), Or(t', 61));
  }

  lemma SumValue(a: int, b: int)
    ensures ToUint32(a + b) == (ToUint32(a) + ToUint32(b)) % TWO32
  {
  }

  lemma FinishValue(t': int, fold: nat, fin: nat)
    requires ToUint32(t') == fold && Pow2(14) == 0x4000
    requires XorBits(fold, fold / 0x4000, 32) == fin
    ensures Finish(t') == fin
  {
    ToUint32Small(fold / 0x4000);
    XorValue(t', fold / 0x4000);
  }

  // ---------------------------------------------------------------- the words met, in bits

  const W_1 := Four(0, 0, 0, 1, Four(0, 0, 0, 0, Four(0, 0, 0, 0, Four(0, 0, 0, 0, Four(0, 0, 0, 0, Four(0, 0, 0, 0, Four(0, 0, 0, 0, Four(0, 0, 0, 0, End))))))))

  lemma Written1()
    ensures Writes(W_1, 0x1)
  {
    assert Writes(Four(0, 0, 0, 1, Four(0, 0, 0, 0, Four(0, 0, 0, 0, Four(0, 0, 0, 0, Four(0, 0, 0, 0, Four(0, 0, 0, 0, Four(0, 0, 0, 0, Four(0, 0, 0, 0, End)))))))), 0x1);
  }

  const W_3D := Four(1, 1, 0, 1, Four(0, 0, 1, 1, Four(0, 0, 0, 0, Four(0, 0, 0, 0, Four(0, 0, 0, 0, Four(0, 0, 0, 0, Four(0, 0, 0, 0, Four(0, 0, 0, 0, End))))))))

  lemma Written3D()
    ensures Writes(W_3D, 0x3D)
  {
    assert Writes(Four(1, 1, 0, 1, Four(0, 0, 1, 1, Four(0, 0, 0, 0, Four(0, 0, 0, 0, Four(0, 0, 0, 0, Four(0, 0, 0, 0, Four(0, 0, 0, 0, Four(0, 0, 0, 0, End)))))))), 0x3D);
  }

  const W_DA56 := Four(0, 1, 1, 0, Four(0, 1, 0, 1, Four(1, 0, 1, 0, Four(1, 1, 0, 1, Four(0, 0, 0, 0, Four(0, 0, 0, 0, Four(0, 0, 0, 0, Four(0, 0, 0, 0, End))))))))

  lemma WrittenDA56()
    ensures Writes(W_DA56, 0xDA56)
  {
    assert Writes(Four(0, 1, 1, 0, Four(0, 1, 0, 1, Four(1, 0, 1, 0, Four(1, 1, 0, 1, Four(0, 0, 0, 0, Four(0, 0, 0, 0, Four(0, 0, 0, 0, Four(0, 0, 0, 0, End)))))))), 0xDA56);
  }

  const W_110D6 := Four(0, 1, 1, 0, Four(1, 1, 0, 1, Four(0, 0, 0, 0, Four(0, 0, 0, 1, Four(0, 0, 0, 1, Four(0, 0, 0, 0, Four(0, 0, 0, 0, Four(0, 0, 0, 0, End))))))))

  lemma Written110D6()
    ensures Writes(W_110D6, 0x110D6)
  {
    assert Writes(Four(0, 1, 1, 0, Four(1, 1, 0, 1, Four(0, 0, 0, 0, Four(0, 0, 0, 1, Four(0, 0, 0, 1, Four(0, 0, 0, 0, Four(0, 0, 0, 0, Four(0, 0, 0, 0, End)))))))), 0x110D6);
  }

  const W_28215 := Four(0, 1, 0, 1, Four(0, 0, 0, 1, Four(0, 0, 1, 0, Four(1, 0, 0, 0, Four(0, 0, 1, 0, Four(0, 0, 0, 0, Four(0, 0, 0, 0, Four(0, 0, 0, 0, End))))))))

  lemma Written28215()
    ensures Writes(W_28215, 0x28215)
  {
    assert Writes(Four(0, 1, 0, 1, Four(0, 0, 0, 1, Four(0, 0, 1, 0, Four(1, 0, 0, 0, Four(0, 0, 1, 0, Four(0, 0, 0, 0, Four(0, 0, 0, 0, Four(0, 0, 0, 0, End)))))))), 0x28215);
  }

  const W_122A2FE := Four(1, 1, 1, 0, Four(1, 1, 1, 1, Four(0, 0, 1, 0, Four(1, 0, 1, 0, Four(0, 0, 1, 0, Four(0, 0, 1, 0, Four(0, 0, 0, 1, Four(0, 0, 0, 0, End))))))))

  lemma Written122A2FE()
    ensures Writes(W_122A2FE, 0x122A2FE)
  {
    assert Writes(Four(1, 1, 1, 0, Four(1, 1, 1, 1, Four(0, 0, 1, 0, Four(1, 0, 1, 0, Four(0, 0, 1, 0, Four(0, 0, 1, 0, Four(0, 0, 0, 1, Four(0, 0, 0, 0, End)))))))), 0x122A2FE);
  }

  const W_1FCF94B := Four(1, 0, 1, 1, Four(0, 1, 0, 0, Four(1, 0, 0, 1, Four(1, 1, 1, 1, Four(1, 1, 0, 0, Four(1, 1, 1, 1, Four(0, 0, 0, 1, Four(0, 0, 0, 0, End))))))))

  lemma Written1FCF94B()
    ensures Writes(W_1FCF94B, 0x1FCF94B)
  {
    assert Writes(Four(1, 0, 1, 1, Four(0, 1, 0, 0, Four(1, 0, 0, 1, Four(1, 1, 1, 1, Four(1, 1, 0, 0, Four(1, 1, 1, 1, Four(0, 0, 0, 1, Four(0, 0, 0, 0, End)))))))), 0x1FCF94B);
  }

  const W_31D41786 := Four(0, 1, 1, 0, Four(1, 0, 0, 0, Four(0, 1, 1, 1, Four(0, 0, 0, 1, Four(0, 1, 0, 0, Four(1, 1, 0, 1, Four(0, 0, 0, 1, Four(0, 0, 1, 1, End))))))))

  lemma Written31D41786()
    ensures Writes(W_31D41786, 0x31D41786)
  {
    assert Writes(Four(0, 1, 1, 0, Four(1, 0, 0, 0, Four(0, 1, 1, 1, Four(0, 0, 0, 1, Four(0, 1, 0, 0, Four(1, 1, 0, 1, Four(0, 0, 0, 1, Four(0, 0, 1, 1, End)))))))), 0x31D41786);
  }

  const W_4434B462 := Four(0, 0, 1, 0, Four(0, 1, 1, 0, Four(0, 1, 0, 0, Four(1, 0, 1, 1, Four(0, 1, 0, 0, Four(0, 0, 1, 1, Four(0, 1, 0, 0, Four(0, 1, 0, 0, End))))))))

  lemma Written4434B462()
    ensures Writes(W_4434B462, 0x4434B462)
  {
    assert Writes(Four(0, 0, 1, 0, Four(0, 1, 1, 0, Four(0, 1, 0, 0, Four(1, 0, 1, 1, Four(0, 1, 0, 0, Four(0, 0, 1, 1, Four(0, 1, 0, 0, Four(0, 1, 0, 0, End)))))))), 0x4434B462);
  }

  const W_4435A4B4 := Four(0, 1, 0, 0, Four(1, 0, 1, 1, Four(0, 1, 0, 0, Four(1, 0, 1, 0, Four(0, 1, 0, 1, Four(0, 0, 1, 1, Four(0, 1, 0, 0, Four(0, 1, 0, 0, End))))))))

  lemma Written4435A4B4()
    ensures Writes(W_4435A4B4, 0x4435A4B4)
  {
    assert Writes(Four(0, 1, 0, 0, Four(1, 0, 1, 1, Four(0, 1, 0, 0, Four(1, 0, 1, 0, Four(0, 1, 0, 1, Four(0, 0, 1, 1, Four(0, 1, 0, 0, Four(0, 1, 0, 0, End)))))))), 0x4435A4B4);
  }

  const W_6D2B79F5 := Four(0, 1, 0, 1, Four(1, 1, 1, 1, Four(1, 0, 0, 1, Four(0, 1, 1, 1, Four(1, 0, 1, 1, Four(0, 0, 1, 0, Four(1, 1, 0, 1, Four(0, 1, 1, 0, End))))))))

  lemma Written6D2B79F5()
    ensures Writes(W_6D2B79F5, 0x6D2B79F5)
  {
    assert Writes(Four(0, 1, 0, 1, Four(1, 1, 1, 1, Four(1, 0, 0, 1, Four(0, 1, 1, 1, Four(1, 0, 1, 1, Four(0, 0, 1, 0, Four(1, 1, 0, 1, Four(0, 1, 1, 0, End)))))))), 0x6D2B79F5);
  }

  const W_6D2B79F6 := Four(0, 1, 1, 0, Four(1, 1, 1, 1, Four(1, 0, 0, 1, Four(0, 1, 1, 1, Four(1, 0, 1, 1, Four(0, 0, 1, 0, Four(1, 1, 0, 1, Four(0, 1, 1, 0, End))))))))

  lemma Written6D2B79F6()
    ensures Writes(W_6D2B79F6, 0x6D2B79F6)
  {
    assert Writes(Four(0, 1, 1, 0, Four(1, 1, 1, 1, Four(1, 0, 0, 1, Four(0, 1, 1, 1, Four(1, 0, 1, 1, Four(0, 0, 1, 0, Four(1, 1, 0, 1, Four(0, 1, 1, 0, End)))))))), 0x6D2B79F6);
  }

  const W_6D2B79F7 := Four(0, 1, 1, 1, Four(1, 1, 1, 1, Four(1, 0, 0, 1, Four(0, 1, 1, 1, Four(1, 0, 1, 1, Four(0, 0, 1, 0, Four(1, 1, 0, 1, Four(0, 1, 1, 0, End))))))))

  lemma Written6D2B79F7()
    ensures Writes(W_6D2B79F7, 0x6D2B79F7)
  {
    assert Writes(Four(0, 1, 1, 1, Four(1, 1, 1, 1, Four(1, 0, 0, 1, Four(0, 1, 1, 1, Four(1, 0, 1, 1, Four(0, 0, 1, 0, Four(1, 1, 0, 1, Four(0, 1, 1, 0, End)))))))), 0x6D2B79F7);
  }

  const W_6D2BA3A0 := Four(0, 0, 0, 0, Four(1, 0, 1, 0, Four(0, 0, 1, 1, Four(1, 0, 1, 0, Four(1, 0, 1, 1, Four(0, 0, 1, 0, Four(1, 1, 0, 1, Four(0, 1, 1, 0, End))))))))

  lemma Written6D2BA3A0()
    ensures Writes(W_6D2BA3A0, 0x6D2BA3A0)
  {
    assert Writes(Four(0, 0, 0, 0, Four(1, 0, 1, 0, Four(0, 0, 1, 1, Four(1, 0, 1, 0, Four(1, 0, 1, 1, Four(0, 0, 1, 0, Four(1, 1, 0, 1, Four(0, 1, 1, 0, End)))))))), 0x6D2BA3A0);
  }

  const W_6D2BA3A3 := Four(0, 0, 1, 1, Four(1, 0, 1, 0, Four(0, 0, 1, 1, Four(1, 0, 1, 0, Four(1, 0, 1, 1, Four(0, 0, 1, 0, Four(1, 1, 0, 1, Four(0, 1, 1, 0, End))))))))

  lemma Written6D2BA3A3()
    ensures Writes(W_6D2BA3A3, 0x6D2BA3A3)
  {
    assert Writes(Four(0, 0, 1, 1, Four(1, 0, 1, 0, Four(0, 0, 1, 1, Four(1, 0, 1, 0, Four(1, 0, 1, 1, Four(0, 0, 1, 0, Four(1, 1, 0, 1, Four(0, 1, 1, 0, End)))))))), 0x6D2BA3A3);
  }

  const W_9073DD9E := Four(1, 1, 1, 0, Four(1, 0, 0, 1, Four(1, 1, 0, 1, Four(1, 1, 0, 1, Four(0, 0, 1, 1, Four(0, 1, 1, 1, Four(0, 0, 0, 0, Four(1, 0, 0, 1, End))))))))

  lemma Written9073DD9E()
    ensures Writes(W_9073DD9E, 0x9073DD9E)
  {
    assert Writes(Four(1, 1, 1, 0, Four(1, 0, 0, 1, Four(1, 1, 0, 1, Four(1, 1, 0, 1, Four(0, 0, 1, 1, Four(0, 1, 1, 1, Four(0, 0, 0, 0, Four(1, 0, 0, 1, End)))))))), 0x9073DD9E);
  }

  const W_91517F60 := Four(0, 0, 0, 0, Four(0, 1, 1, 0, Four(1, 1, 1, 1, Four(0, 1, 1, 1, Four(0, 0, 0, 1, Four(0, 1, 0, 1, Four(0, 0, 0, 1, Four(1, 0, 0, 1, End))))))))

  lemma Written91517F60()
    ensures Writes(W_91517F60, 0x91517F60)
  {
    assert Writes(Four(0, 0, 0, 0, Four(0, 1, 1, 0, Four(1, 1, 1, 1, Four(0, 1, 1, 1, Four(0, 0, 0, 1, Four(0, 1, 0, 1, Four(0, 0, 0, 1, Four(1, 0, 0, 1, End)))))))), 0x91517F60);
  }

  const W_91517F7D := Four(1, 1, 0, 1, Four(0, 1, 1, 1, Four(1, 1, 1, 1, Four(0, 1, 1, 1, Four(0, 0, 0, 1, Four(0, 1, 0, 1, Four(0, 0, 0, 1, Four(1, 0, 0, 1, End))))))))

  lemma Written91517F7D()
    ensures Writes(W_91517F7D, 0x91517F7D)
  {
    assert Writes(Four(1, 1, 0, 1, Four(0, 1, 1, 1, Four(1, 1, 1, 1, Four(0, 1, 1, 1, Four(0, 0, 0, 1, Four(0, 1, 0, 1, Four(0, 0, 0, 1, Four(1, 0, 0, 1, End)))))))), 0x91517F7D);
  }

  const W_A08568E6 := Four(0, 1, 1, 0, Four(1, 1, 1, 0, Four(1, 0, 0, 0, Four(0, 1, 1, 0, Four(0, 1, 0, 1, Four(1, 0, 0, 0, Four(0, 0, 0, 0, Four(1, 0, 1, 0, End))))))))

  lemma WrittenA08568E6()
    ensures Writes(W_A08568E6, 0xA08568E6)
  {
    assert Writes(Four(0, 1, 1, 0, Four(1, 1, 1, 0, Four(1, 0, 0, 0, Four(0, 1, 1, 0, Four(0, 1, 0, 1, Four(1, 0, 0, 0, Four(0, 0, 0, 0, Four(1, 0, 1, 0, End)))))))), 0xA08568E6);
  }

  const W_A087EAF3 := Four(0, 0, 1, 1, Four(1, 1, 1, 1, Four(1, 0, 1, 0, Four(1, 1, 1, 0, Four(0, 1, 1, 1, Four(1, 0, 0, 0, Four(0, 0, 0, 0, Four(1, 0, 1, 0, End))))))))

  lemma WrittenA087EAF3()
    ensures Writes(W_A087EAF3, 0xA087EAF3)
  {
    assert Writes(Four(0, 0, 1, 1, Four(1, 1, 1, 1, Four(1, 0, 1, 0, Four(1, 1, 1, 0, Four(0, 1, 1, 1, Four(1, 0, 0, 0, Four(0, 0, 0, 0, Four(1, 0, 1, 0, End)))))))), 0xA087EAF3);
  }

  const W_BA49014B := Four(1, 0, 1, 1, Four(0, 1, 0, 0, Four(0, 0, 0, 1, Four(0, 0, 0, 0, Four(1, 0, 0, 1, Four(0, 1, 0, 0, Four(1, 0, 1, 0, Four(1, 0, 1, 1, End))))))))

  lemma WrittenBA49014B()
    ensures Writes(W_BA49014B, 0xBA49014B)
  {
    assert Writes(Four(1, 0, 1, 1, Four(0, 1, 0, 0, Four(0, 0, 0, 1, Four(0, 0, 0, 0, Four(1, 0, 0, 1, Four(0, 1, 0, 0, Four(1, 0, 1, 0, Four(1, 0, 1, 1, End)))))))), 0xBA49014B);
  }

  const W_FE7CA5FF := Four(1, 1, 1, 1, Four(1, 1, 1, 1, Four(0, 1, 0, 1, Four(1, 0, 1, 0, Four(1, 1, 0, 0, Four(0, 1, 1, 1, Four(1, 1, 1, 0, Four(1, 1, 1, 1, End))))))))

  lemma WrittenFE7CA5FF()
    ensures Writes(W_FE7CA5FF, 0xFE7CA5FF)
  {
    assert Writes(Four(1, 1, 1, 1, Four(1, 1, 1, 1, Four(0, 1, 0, 1, Four(1, 0, 1, 0, Four(1, 1, 0, 0, Four(0, 1, 1, 1, Four(1, 1, 1, 0, Four(1, 1, 1, 1, End)))))))), 0xFE7CA5FF);
  }

  const W_FF805CB4 := Four(0, 1, 0, 0, Four(1, 0, 1, 1, Four(1, 1, 0, 0, Four(0, 1, 0, 1, Four(0, 0, 0, 0, Four(1, 0, 0, 0, Four(1, 1, 1, 1, Four(1, 1, 1, 1, End))))))))

  lemma WrittenFF805CB4()
    ensures Writes(W_FF805CB4, 0xFF805CB4)
  {
    assert Writes(Four(0, 1, 0, 0, Four(1, 0, 1, 1, Four(1, 1, 0, 0, Four(0, 1, 0, 1, Four(0, 0, 0, 0, Four(1, 0, 0, 0, Four(1, 1, 1, 1, Four(1, 1, 1, 1, End)))))))), 0xFF805CB4);
  }

  // ---------------------------------------------------------------- the two draws

  lemma ZeroStir15Of()
    ensures XorOf(W_6D2B79F5, W_DA56) == W_6D2BA3A3
  {
    assert XorOf(Four(0, 1, 0, 1, Four(1, 1, 1, 1, Four(1, 0, 0, 1, Four(0, 1, 1, 1, Four(1, 0, 1, 1, Four(0, 0, 1, 0, Four(1, 1, 0, 1, Four(0, 1, 1, 0, End)))))))), Four(0, 1, 1, 0, Four(0, 1, 0, 1, Four(1, 0, 1, 0, Four(1, 1, 0, 1, Four(0, 0, 0, 0, Four(0, 0, 0, 0, Four(0, 0, 0, 0, Four(0, 0, 0, 0, End))))))))) == Four(0, 0, 1, 1, Four(1, 0, 1, 0, Four(0, 0, 1, 1, Four(1, 0, 1, 0, Four(1, 0, 1, 1, Four(0, 0, 1, 0, Four(1, 1, 0, 1, Four(0, 1, 1, 0, End))))))));
  }

  lemma ZeroStir15Bits() returns (p: Bits, q: Bits, r: Bits)
    ensures Writes(p, 0x6D2B79F5) && Writes(q, 0xDA56) && Writes(r, 0x6D2BA3A3) && r == XorOf(p, q)
  {
    p, q, r := W_6D2B79F5, W_DA56, W_6D2BA3A3;
    Written6D2B79F5();
    WrittenDA56();
    Written6D2BA3A3();
    ZeroStir15Of();
  }

  lemma ZeroStir15(a: nat, b: nat)
    requires a == 0x6D2B79F5 && b == 0xDA56
    ensures XorBits(a, b, 32) == 0x6D2BA3A3
  {
    var p, q, r := ZeroStir15Bits();
    XorWord(p, q, r, a, b, 0x6D2BA3A3);
  }

  lemma ZeroOr1Of()
    ensures OrOf(W_6D2B79F5, W_1) == W_6D2B79F5
  {
    assert OrOf(Four(0, 1, 0, 1, Four(1, 1, 1, 1, Four(1, 0, 0, 1, Four(0, 1, 1, 1, Four(1, 0, 1, 1, Four(0, 0, 1, 0, Four(1, 1, 0, 1, Four(0, 1, 1, 0, End)))))))), Four(0, 0, 0, 1, Four(0, 0, 0, 0, Four(0, 0, 0, 0, Four(0, 0, 0, 0, Four(0, 0, 0, 0, Four(0, 0, 0, 0, Four(0, 0, 0, 0, Four(0, 0, 0, 0, End))))))))) == Four(0, 1, 0, 1, Four(1, 1, 1, 1, Four(1, 0, 0, 1, Four(0, 1, 1, 1, Four(1, 0, 1, 1, Four(0, 0, 1, 0, Four(1, 1, 0, 1, Four(0, 1, 1, 0, End))))))));
  }

  lemma ZeroOr1Bits() returns (p: Bits, q: Bits, r: Bits)
    ensures Writes(p, 0x6D2B79F5) && Writes(q, 0x1) && Writes(r, 0x6D2B79F5) && r == OrOf(p, q)
  {
    p, q, r := W_6D2B79F5, W_1, W_6D2B79F5;
    Written6D2B79F5();
    Written1();
    Written6D2B79F5();
    ZeroOr1Of();
  }

  lemma ZeroOr1(a: nat, b: nat)
    requires a == 0x6D2B79F5 && b == 0x1
    ensures OrBits(a, b, 32) == 0x6D2B79F5
  {
    var p, q, r := ZeroOr1Bits();
    OrWord(p, q, r, a, b, 0x6D2B79F5);
  }

  lemma ZeroStirred(s: nat)
    requires s == 0x6D2B79F5
    ensures ToUint32(Stir(s)) == 0xFE7CA5FF
  {
    Shifts();
    ZeroStir15(s, s / 0x8000);
    ZeroOr1(s, 1);
    StirValue(s, 0x6D2BA3A3, 0x6D2B79F5, 0xFE7CA5FF);
  }

  lemma ZeroFold7Of()
    ensures XorOf(W_FE7CA5FF, W_1FCF94B) == W_FF805CB4
  {
    assert XorOf(Four(1, 1, 1, 1, Four(1, 1, 1, 1, Four(0, 1, 0, 1, Four(1, 0, 1, 0, Four(1, 1, 0, 0, Four(0, 1, 1, 1, Four(1, 1, 1, 0, Four(1, 1, 1, 1, End)))))))), Four(1, 0, 1, 1, Four(0, 1, 0, 0, Four(1, 0, 0, 1, Four(1, 1, 1, 1, Four(1, 1, 0, 0, Four(1, 1, 1, 1, Four(0, 0, 0, 1, Four(0, 0, 0, 0, End))))))))) == Four(0, 1, 0, 0, Four(1, 0, 1, 1, Four(1, 1, 0, 0, Four(0, 1, 0, 1, Four(0, 0, 0, 0, Four(1, 0, 0, 0, Four(1, 1, 1, 1, Four(1, 1, 1, 1, End))))))));
  }

  lemma ZeroFold7Bits() returns (p: Bits, q: Bits, r: Bits)
    ensures Writes(p, 0xFE7CA5FF) && Writes(q, 0x1FCF94B) && Writes(r, 0xFF805CB4) && r == XorOf(p, q)
  {
    p, q, r := W_FE7CA5FF, W_1FCF94B, W_FF805CB4;
    WrittenFE7CA5FF();
    Written1FCF94B();
    WrittenFF805CB4();
    ZeroFold7Of();
  }

  lemma ZeroFold7(a: nat, b: nat)
    requires a == 0xFE7CA5FF && b == 0x1FCF94B
    ensures XorBits(a, b, 32) == 0xFF805CB4
  {
    var p, q, r := ZeroFold7Bits();
    XorWord(p, q, r, a, b, 0xFF805CB4);
  }

  lemma ZeroOr61Of()
    ensures OrOf(W_FE7CA5FF, W_3D) == W_FE7CA5FF
  {
    assert OrOf(Four(1, 1, 1, 1, Four(1, 1, 1, 1, Four(0, 1, 0, 1, Four(1, 0, 1, 0, Four(1, 1, 0, 0, Four(0, 1, 1, 1, Four(1, 1, 1, 0, Four(1, 1, 1, 1, End)))))))), Four(1, 1, 0, 1, Four(0, 0, 1, 1, Four(0, 0, 0, 0, Four(0, 0, 0, 0, Four(0, 0, 0, 0, Four(0, 0, 0, 0, Four(0, 0, 0, 0, Four(0, 0, 0, 0, End))))))))) == Four(1, 1, 1, 1, Four(1, 1, 1, 1, Four(0, 1, 0, 1, Four(1, 0, 1, 0, Four(1, 1, 0, 0, Four(0, 1, 1, 1, Four(1, 1, 1, 0, Four(1, 1, 1, 1, End))))))));
  }

  lemma ZeroOr61Bits() returns (p: Bits, q: Bits, r: Bits)
    ensures Writes(p, 0xFE7CA5FF) && Writes(q, 0x3D) && Writes(r, 0xFE7CA5FF) && r == OrOf(p, q)
  {
    p, q, r := W_FE7CA5FF, W_3D, W_FE7CA5FF;
    WrittenFE7CA5FF();
    Written3D();
    WrittenFE7CA5FF();
    ZeroOr61Of();
  }

  lemma ZeroOr61(a: nat, b: nat)
    requires a == 0xFE7CA5FF && b == 0x3D
    ensures OrBits(a, b, 32) == 0xFE7CA5FF
  {
    var p, q, r := ZeroOr61Bits();
    OrWord(p, q, r, a, b, 0xFE7CA5FF);
  }

  lemma ZeroFoldSumOf()
    ensures XorOf(W_FE7CA5FF, W_BA49014B) == W_4435A4B4
  {
    assert XorOf(Four(1, 1, 1, 1, Four(1, 1, 1, 1, Four(0, 1, 0, 1, Four(1, 0, 1, 0, Four(1, 1, 0, 0, Four(0, 1, 1, 1, Four(1, 1, 1, 0, Four(1, 1, 1, 1, End)))))))), Four(1, 0, 1, 1, Four(0, 1, 0, 0, Four(0, 0, 0, 1, Four(0, 0, 0, 0, Four(1, 0, 0, 1, Four(0, 1, 0, 0, Four(1, 0, 1, 0, Four(1, 0, 1, 1, End))))))))) == Four(0, 1, 0, 0, Four(1, 0, 1, 1, Four(0, 1, 0, 0, Four(1, 0, 1, 0, Four(0, 1, 0, 1, Four(0, 0, 1, 1, Four(0, 1, 0, 0, Four(0, 1, 0, 0, End))))))));
  }

  lemma ZeroFoldSumBits() returns (p: Bits, q: Bits, r: Bits)
    ensures Writes(p, 0xFE7CA5FF) && Writes(q, 0xBA49014B) && Writes(r, 0x4435A4B4) && r == XorOf(p, q)
  {
    p, q, r := W_FE7CA5FF, W_BA49014B, W_4435A4B4;
    WrittenFE7CA5FF();
    WrittenBA49014B();
    Written4435A4B4();
    ZeroFoldSumOf();
  }

  lemma ZeroFoldSum(a: nat, b: nat)
    requires a == 0xFE7CA5FF && b == 0xBA49014B
    ensures XorBits(a, b, 32) == 0x4435A4B4
  {
    var p, q, r := ZeroFoldSumBits();
    XorWord(p, q, r, a, b, 0x4435A4B4);
  }

  lemma ZeroFolded(t': int, t: nat)
    requires ToUint32(t') == t == 0xFE7CA5FF
    ensures ToUint32(Fold(t')) == 0x4435A4B4
  {
    Shifts();
    ZeroFold7(t, t / 0x80);
    ZeroOr61(t, 61);
    ZeroFoldSum(t, 0xBA49014B);
    FoldValue(t', t, 0xFF805CB4, 0xFE7CA5FF, 0xBBCC5B4C, 0xBA49014B, 0x4435A4B4);
  }

  lemma ZeroFinish14Of()
    ensures XorOf(W_4435A4B4, W_110D6) == W_4434B462
  {
    assert XorOf(Four(0, 1, 0, 0, Four(1, 0, 1, 1, Four(0, 1, 0, 0, Four(1, 0, 1, 0, Four(0, 1, 0, 1, Four(0, 0, 1, 1, Four(0, 1, 0, 0, Four(0, 1, 0, 0, End)))))))), Four(0, 1, 1, 0, Four(1, 1, 0, 1, Four(0, 0, 0, 0, Four(0, 0, 0, 1, Four(0, 0, 0, 1, Four(0, 0, 0, 0, Four(0, 0, 0, 0, Four(0, 0, 0, 0, End))))))))) == Four(0, 0, 1, 0, Four(0, 1, 1, 0, Four(0, 1, 0, 0, Four(1, 0, 1, 1, Four(0, 1, 0, 0, Four(0, 0, 1, 1, Four(0, 1, 0, 0, Four(0, 1, 0, 0, End))))))));
  }

  lemma ZeroFinish14Bits() returns (p: Bits, q: Bits, r: Bits)
    ensures Writes(p, 0x4435A4B4) && Writes(q, 0x110D6) && Writes(r, 0x4434B462) && r == XorOf(p, q)
  {
    p, q, r := W_4435A4B4, W_110D6, W_4434B462;
    Written4435A4B4();
    Written110D6();
    Written4434B462();
    ZeroFinish14Of();
  }

  lemma ZeroFinish14(a: nat, b: nat)
    requires a == 0x4435A4B4 && b == 0x110D6
    ensures XorBits(a, b, 32) == 0x4434B462
  {
    var p, q, r := ZeroFinish14Bits();
    XorWord(p, q, r, a, b, 0x4434B462);
  }

  lemma ZeroFinished(t': int, fold: nat)
    requires ToUint32(t') == fold == 0x4435A4B4
    ensures Finish(t') == 1144304738
  {
    Shifts();
    ZeroFinish14(fold, fold / 0x4000);
    FinishValue(t', fold, 1144304738);
  }

  /** What is drawn first from seed 0 ... */
  lemma FirstOfZero(s: nat)
    requires s == 0x6D2B79F5
    ensures Mix(s) == 1144304738
  {
    ZeroStirred(s);
    ZeroFolded(Stir(s), 0xFE7CA5FF);
    ZeroFinished(Fold(Stir(s)), 0x4435A4B4);
  }

  lemma OneStir15Of()
    ensures XorOf(W_6D2B79F6, W_DA56) == W_6D2BA3A0
  {
    assert XorOf(Four(0, 1, 1, 0, Four(1, 1, 1, 1, Four(1, 0, 0, 1, Four(0, 1, 1, 1, Four(1, 0, 1, 1, Four(0, 0, 1, 0, Four(1, 1, 0, 1, Four(0, 1, 1, 0, End)))))))), Four(0, 1, 1, 0, Four(0, 1, 0, 1, Four(1, 0, 1, 0, Four(1, 1, 0, 1, Four(0, 0, 0, 0, Four(0, 0, 0, 0, Four(0, 0, 0, 0, Four(0, 0, 0, 0, End))))))))) == Four(0, 0, 0, 0, Four(1, 0, 1, 0, Four(0, 0, 1, 1, Four(1, 0, 1, 0, Four(1, 0, 1, 1, Four(0, 0, 1, 0, Four(1, 1, 0, 1, Four(0, 1, 1, 0, End))))))));
  }

  lemma OneStir15Bits() returns (p: Bits, q: Bits, r: Bits)
    ensures Writes(p, 0x6D2B79F6) && Writes(q, 0xDA56) && Writes(r, 0x6D2BA3A0) && r == XorOf(p, q)
  {
    p, q, r := W_6D2B79F6, W_DA56, W_6D2BA3A0;
    Written6D2B79F6();
    WrittenDA56();
    Written6D2BA3A0();
    OneStir15Of();
  }

  lemma OneStir15(a: nat, b: nat)
    requires a == 0x6D2B79F6 && b == 0xDA56
    ensures XorBits(a, b, 32) == 0x6D2BA3A0
  {
    var p, q, r := OneStir15Bits();
    XorWord(p, q, r, a, b, 0x6D2BA3A0);
  }

  lemma OneOr1Of()
    ensures OrOf(W_6D2B79F6, W_1) == W_6D2B79F7
  {
    assert OrOf(Four(0, 1, 1, 0, Four(1, 1, 1, 1, Four(1, 0, 0, 1, Four(0, 1, 1, 1, Four(1, 0, 1, 1, Four(0, 0, 1, 0, Four(1, 1, 0, 1, Four(0, 1, 1, 0, End)))))))), Four(0, 0, 0, 1, Four(0, 0, 0, 0, Four(0, 0, 0, 0, Four(0, 0, 0, 0, Four(0, 0, 0, 0, Four(0, 0, 0, 0, Four(0, 0, 0, 0, Four(0, 0, 0, 0, End))))))))) == Four(0, 1, 1, 1, Four(1, 1, 1, 1, Four(1, 0, 0, 1, Four(0, 1, 1, 1, Four(1, 0, 1, 1, Four(0, 0, 1, 0, Four(1, 1, 0, 1, Four(0, 1, 1, 0, End))))))));
  }

  lemma OneOr1Bits() returns (p: Bits, q: Bits, r: Bits)
    ensures Writes(p, 0x6D2B79F6) && Writes(q, 0x1) && Writes(r, 0x6D2B79F7) && r == OrOf(p, q)
  {
    p, q, r := W_6D2B79F6, W_1, W_6D2B79F7;
    Written6D2B79F6();
    Written1();
    Written6D2B79F7();
    OneOr1Of();
  }

  lemma OneOr1(a: nat, b: nat)
    requires a == 0x6D2B79F6 && b == 0x1
    ensures OrBits(a, b, 32) == 0x6D2B79F7
  {
    var p, q, r := OneOr1Bits();
    OrWord(p, q, r, a, b, 0x6D2B79F7);
  }

  lemma OneStirred(s: nat)
    requires s == 0x6D2B79F6
    ensures ToUint32(Stir(s)) == 0x91517F60
  {
    Shifts();
    OneStir15(s, s / 0x8000);
    OneOr1(s, 1);
    StirValue(s, 0x6D2BA3A0, 0x6D2B79F7, 0x91517F60);
  }

  lemma OneFold7Of()
    ensures XorOf(W_91517F60, W_122A2FE) == W_9073DD9E
  {
    assert XorOf(Four(0, 0, 0, 0, Four(0, 1, 1, 0, Four(1, 1, 1, 1, Four(0, 1, 1, 1, Four(0, 0, 0, 1, Four(0, 1, 0, 1, Four(0, 0, 0, 1, Four(1, 0, 0, 1, End)))))))), Four(1, 1, 1, 0, Four(1, 1, 1, 1, Four(0, 0, 1, 0, Four(1, 0, 1, 0, Four(0, 0, 1, 0, Four(0, 0, 1, 0, Four(0, 0, 0, 1, Four(0, 0, 0, 0, End))))))))) == Four(1, 1, 1, 0, Four(1, 0, 0, 1, Four(1, 1, 0, 1, Four(1, 1, 0, 1, Four(0, 0, 1, 1, Four(0, 1, 1, 1, Four(0, 0, 0, 0, Four(1, 0, 0, 1, End))))))));
  }

  lemma OneFold7Bits() returns (p: Bits, q: Bits, r: Bits)
    ensures Writes(p, 0x91517F60) && Writes(q, 0x122A2FE) && Writes(r, 0x9073DD9E) && r == XorOf(p, q)
  {
    p, q, r := W_91517F60, W_122A2FE, W_9073DD9E;
    Written91517F60();
    Written122A2FE();
    Written9073DD9E();
    OneFold7Of();
  }

  lemma OneFold7(a: nat, b: nat)
    requires a == 0x91517F60 && b == 0x122A2FE
    ensures XorBits(a, b, 32) == 0x9073DD9E
  {
    var p, q, r := OneFold7Bits();
    XorWord(p, q, r, a, b, 0x9073DD9E);
  }

  lemma OneOr61Of()
    ensures OrOf(W_91517F60, W_3D) == W_91517F7D
  {
    assert OrOf(Four(0, 0, 0, 0, Four(0, 1, 1, 0, Four(1, 1, 1, 1, Four(0, 1, 1, 1, Four(0, 0, 0, 1, Four(0, 1, 0, 1, Four(0, 0, 0, 1, Four(1, 0, 0, 1, End)))))))), Four(1, 1, 0, 1, Four(0, 0, 1, 1, Four(0, 0, 0, 0, Four(0, 0, 0, 0, Four(0, 0, 0, 0, Four(0, 0, 0, 0, Four(0, 0, 0, 0, Four(0, 0, 0, 0, End))))))))) == Four(1, 1, 0, 1, Four(0, 1, 1, 1, Four(1, 1, 1, 1, Four(0, 1, 1, 1, Four(0, 0, 0, 1, Four(0, 1, 0, 1, Four(0, 0, 0, 1, Four(1, 0, 0, 1, End))))))));
  }

  lemma OneOr61Bits() returns (p: Bits, q: Bits, r: Bits)
    ensures Writes(p, 0x91517F60) && Writes(q, 0x3D) && Writes(r, 0x91517F7D) && r == OrOf(p, q)
  {
    p, q, r := W_91517F60, W_3D, W_91517F7D;
    Written91517F60();
    Written3D();
    Written91517F7D();
    OneOr61Of();
  }

  lemma OneOr61(a: nat, b: nat)
    requires a == 0x91517F60 && b == 0x3D
    ensures OrBits(a, b, 32) == 0x91517F7D
  {
    var p, q, r := OneOr61Bits();
    OrWord(p, q, r, a, b, 0x91517F7D);
  }

  lemma OneFoldSumOf()
    ensures XorOf(W_91517F60, W_31D41786) == W_A08568E6
  {
    assert XorOf(Four(0, 0, 0, 0, Four(0, 1, 1, 0, Four(1, 1, 1, 1, Four(0, 1, 1, 1, Four(0, 0, 0, 1, Four(0, 1, 0, 1, Four(0, 0, 0, 1, Four(1, 0, 0, 1, End)))))))), Four(0, 1, 1, 0, Four(1, 0, 0, 0, Four(0, 1, 1, 1, Four(0, 0, 0, 1, Four(0, 1, 0, 0, Four(1, 1, 0, 1, Four(0, 0, 0, 1, Four(0, 0, 1, 1, End))))))))) == Four(0, 1, 1, 0, Four(1, 1, 1, 0, Four(1, 0, 0, 0, Four(0, 1, 1, 0, Four(0, 1, 0, 1, Four(1, 0, 0, 0, Four(0, 0, 0, 0, Four(1, 0, 1, 0, End))))))));
  }

  lemma OneFoldSumBits() returns (p: Bits, q: Bits, r: Bits)
    ensures Writes(p, 0x91517F60) && Writes(q, 0x31D41786) && Writes(r, 0xA08568E6) && r == XorOf(p, q)
  {
    p, q, r := W_91517F60, W_31D41786, W_A08568E6;
    Written91517F60();
    Written31D41786();
    WrittenA08568E6();
    OneFoldSumOf();
  }

  lemma OneFoldSum(a: nat, b: nat)
    requires a == 0x91517F60 && b == 0x31D41786
    ensures XorBits(a, b, 32) == 0xA08568E6
  {
    var p, q, r := OneFoldSumBits();
    XorWord(p, q, r, a, b, 0xA08568E6);
  }

  lemma OneFolded(t': int, t: nat)
    requires ToUint32(t') == t == 0x91517F60
    ensures ToUint32(Fold(t')) == 0xA08568E6
  {
    Shifts();
    OneFold7(t, t / 0x80);
    OneOr61(t, 61);
    OneFoldSum(t, 0x31D41786);
    FoldValue(t', t, 0x9073DD9E, 0x91517F7D, 0xA0829826, 0x31D41786, 0xA08568E6);
  }

  lemma OneFinish14Of()
    ensures XorOf(W_A08568E6, W_28215) == W_A087EAF3
  {
    assert XorOf(Four(0, 1, 1, 0, Four(1, 1, 1, 0, Four(1, 0, 0, 0, Four(0, 1, 1, 0, Four(0, 1, 0, 1, Four(1, 0, 0, 0, Four(0, 0, 0, 0, Four(1, 0, 1, 0, End)))))))), Four(0, 1, 0, 1, Four(0, 0, 0, 1, Four(0, 0, 1, 0, Four(1, 0, 0, 0, Four(0, 0, 1, 0, Four(0, 0, 0, 0, Four(0, 0, 0, 0, Four(0, 0, 0, 0, End))))))))) == Four(0, 0, 1, 1, Four(1, 1, 1, 1, Four(1, 0, 1, 0, Four(1, 1, 1, 0, Four(0, 1, 1, 1, Four(1, 0, 0, 0, Four(0, 0, 0, 0, Four(1, 0, 1, 0, End))))))));
  }

  lemma OneFinish14Bits() returns (p: Bits, q: Bits, r: Bits)
    ensures Writes(p, 0xA08568E6) && Writes(q, 0x28215) && Writes(r, 0xA087EAF3) && r == XorOf(p, q)
  {
    p, q, r := W_A08568E6, W_28215, W_A087EAF3;
    WrittenA08568E6();
    Written28215();
    WrittenA087EAF3();
    OneFinish14Of();
  }

  lemma OneFinish14(a: nat, b: nat)
    requires a == 0xA08568E6 && b == 0x28215
    ensures XorBits(a, b, 32) == 0xA087EAF3
  {
    var p, q, r := OneFinish14Bits();
    XorWord(p, q, r, a, b, 0xA087EAF3);
  }

  lemma OneFinished(t': int, fold: nat)
    requires ToUint32(t') == fold == 0xA08568E6
    ensures Finish(t') == 2693262067
  {
    Shifts();
    OneFinish14(fold, fold / 0x4000);
    FinishValue(t', fold, 2693262067);
  }

  /** ... and first from seed 1. */
  lemma FirstOfOne(s: nat)
    requires s == 0x6D2B79F6
    ensures Mix(s) == 2693262067
  {
    OneStirred(s);
    OneFolded(Stir(s), 0x91517F60);
    OneFinished(Fold(Stir(s)), 0xA08568E6);
  }

  /** The first draws of the simulator's generator from seeds 0 and 1. */
  lemma FirstDraw(seed: int, k: nat)
    requires k == 0
    ensures seed == 0 ==> StreamOf(seed)(k) == 1144304738
    ensures seed == 1 ==> StreamOf(seed)(k) == 2693262067
  {
    var state := ToUint32(seed) + INCREMENT;
    ToDoubleExact(state);
    assert StateAhead(ToUint32(seed), k) == state;
    if seed == 0 {
      FirstOfZero(state);
    } else if seed == 1 {
      FirstOfOne(state);
    }
  }
}
