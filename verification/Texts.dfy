/** JavaScript strings as sequences of UTF-16 code units, and decimal numerals in them. */
module Texts {

  type Unit = n: int | 0 <= n < 0x1_0000
  type Text = seq<Unit>
  type Byte = n: int | 0 <= n < 256

  const DIGIT_0: Unit := 48
  const COMMA: Unit := 44
  const MINUS: Unit := 45
  const COLON: Unit := 58

  predicate IsDigit(u: Unit) {
    DIGIT_0 <= u < DIGIT_0 + 10
  }

  predicate AllDigits(t: Text) {
    forall i | 0 <= i < |t| :: IsDigit(t[i])
  }

  /** The decimal numeral of a natural number. */
  function NatText(n: nat): (t: Text)
    ensures AllDigits(t) && t != []
  {
    if n < 10 then [DIGIT_0 + n] else NatText(n / 10) + [DIGIT_0 + n % 10]
  }

  /** What a numeral denotes. */
  function NatOf(t: Text): nat
    requires AllDigits(t)
  {
    if t == [] then 0 else 10 * NatOf(t[..|t| - 1]) + t[|t| - 1] - DIGIT_0
  }

  lemma NatOfSnoc(t: Text, u: Unit)
    requires AllDigits(t) && IsDigit(u)
    ensures NatOf(t + [u]) == 10 * NatOf(t) + u - DIGIT_0
  {
    assert (t + [u])[..|t|] == t;
  }

  lemma {:induction false} NatRoundTrip(n: nat)
    ensures NatOf(NatText(n)) == n
  {
    if n < 10 {
      NatOfSnoc([], DIGIT_0 + n);
      assert [] + [DIGIT_0 + n] == NatText(n);
    } else {
      NatRoundTrip(n / 10);
      NatOfSnoc(NatText(n / 10), DIGIT_0 + n % 10);
    }
  }

  /** String(n) for an integer n. */
  function IntText(n: int): (t: Text)
    ensures t != []
  {
    if n < 0 then [MINUS] + NatText(-n) else NatText(n)
  }

  lemma IntTextShape(n: int)
    ensures forall i | 0 <= i < |IntText(n)| :: IsDigit(IntText(n)[i]) || IntText(n)[i] == MINUS
    ensures IntText(n)[0] == MINUS <==> n < 0
  {
  }

  lemma IntTextInjective(m: int, n: int)
    requires IntText(m) == IntText(n)
    ensures m == n
  {
    IntTextShape(m);
    IntTextShape(n);
    var a, b := if m < 0 then -m else m, if n < 0 then -n else n;
    if m < 0 {
      assert NatText(a) == IntText(m)[1..] == IntText(n)[1..] == NatText(b);
    }
    NatRoundTrip(a);
    NatRoundTrip(b);
  }

  /** The position of the first `u` in `t`, or |t| when there is none. */
  function IndexOf(t: Text, u: Unit): (i: nat)
    ensures i <= |t|
    ensures u !in t[..i]
    ensures i < |t| ==> t[i] == u
  {
    if t == [] || t[0] == u then 0 else 1 + IndexOf(t[1..], u)
  }

  lemma IndexOfIs(t: Text, u: Unit, i: nat)
    requires i <= |t| && u !in t[..i]
    requires i < |t| ==> t[i] == u
    ensures IndexOf(t, u) == i
  {
  }

  /** Cutting a text at the unit that separates `left` from `right`. */
  lemma CutAt(t: Text, left: Text, right: Text, u: Unit)
    requires t == left + right && u !in left && (right == [] || right[0] == u)
    ensures IndexOf(t, u) == |left| && t[..|left|] == left && t[|left|..] == right
  {
    assert t[..|left|] == left;
    IndexOfIs(t, u, |left|);
  }

  /** The order of Array.prototype.sort on strings: by code unit. */
  predicate Leq(a: Text, b: Text) {
    a == [] || (b != [] && (a[0] < b[0] || (a[0] == b[0] && Leq(a[1..], b[1..]))))
  }

  lemma {:induction false} LeqTotal(a: Text, b: Text)
    ensures Leq(a, b) || Leq(b, a)
    ensures Leq(a, b) && Leq(b, a) ==> a == b
  {
    if a != [] && b != [] && a[0] == b[0] {
      LeqTotal(a[1..], b[1..]);
      assert a == [a[0]] + a[1..] && b == [b[0]] + b[1..];
    }
  }

  lemma {:induction false} LeqTransitive(a: Text, b: Text, c: Text)
    requires Leq(a, b) && Leq(b, c)
    ensures Leq(a, c)
  {
    if a != [] && a[0] == b[0] == c[0] {
      LeqTransitive(a[1..], b[1..], c[1..]);
    }
  }

  /** `a` is a proper beginning of `b`, or smaller at the first unit where they differ. */
  ghost predicate ComesBefore(a: Text, b: Text) {
    a < b || exists i :: SmallerAt(a, b, i)
  }

  ghost predicate SmallerAt(a: Text, b: Text, i: int) {
    0 <= i < |a| && i < |b| && a[..i] == b[..i] && a[i] < b[i]
  }

  lemma {:induction false} LeqIsBefore(a: Text, b: Text)
    requires Leq(a, b)
    ensures a == b || ComesBefore(a, b)
  {
    if a == [] {
      assert b != [] ==> a < b;
    } else if a[0] < b[0] {
      assert SmallerAt(a, b, 0);
    } else {
      var r, s := a[1..], b[1..];
      LeqIsBefore(r, s);
      assert a == [a[0]] + r && b == [b[0]] + s;
      if !(r <= s) {
        var i :| SmallerAt(r, s, i);
        assert a[..i + 1] == [a[0]] + r[..i] && b[..i + 1] == [b[0]] + s[..i];
        assert SmallerAt(a, b, i + 1);
      }
    }
  }

  lemma {:induction false} PrefixLeq(a: Text, b: Text)
    requires a <= b
    ensures Leq(a, b)
  {
    if a != [] {
      assert a[0] == b[0] && a[1..] <= b[1..];
      PrefixLeq(a[1..], b[1..]);
    }
  }

  lemma {:induction false} SmallerLeq(a: Text, b: Text, i: nat)
    requires SmallerAt(a, b, i)
    ensures Leq(a, b)
  {
    if i > 0 {
      assert a[0] == a[..i][0] == b[..i][0] == b[0];
      assert a[1..][..i - 1] == a[..i][1..] && b[1..][..i - 1] == b[..i][1..];
      SmallerLeq(a[1..], b[1..], i - 1);
    }
  }

  /** The order is exactly that: equal, a beginning, or smaller at the first difference. */
  lemma LeqIff(a: Text, b: Text)
    ensures Leq(a, b) <==> a == b || ComesBefore(a, b)
  {
    if Leq(a, b) {
      LeqIsBefore(a, b);
    }
    if a <= b {
      PrefixLeq(a, b);
    } else if ComesBefore(a, b) {
      var i :| SmallerAt(a, b, i);
      SmallerLeq(a, b, i);
    }
  }

  /** Of two texts exactly one comes first. */
  lemma BeforeOneWay(a: Text, b: Text)
    ensures ComesBefore(a, b) ==> !ComesBefore(b, a) && a != b
  {
    LeqIff(a, b);
    LeqIff(b, a);
    LeqTotal(a, b);
  }

  /** A text written out, for known answers. */
  function Ascii(s: string): (t: Text)
    ensures |t| == |s|
  {
    seq(|s|, i requires 0 <= i < |s| => s[i] as int % 0x1_0000)
  }

  /** What the numbers of units stand for. */
  lemma KnownUnits()
    ensures [DIGIT_0, COMMA, MINUS, COLON] == Ascii("0,-:")
    ensures forall d | 0 <= d < 16 :: HexDigit(d) == Ascii("0123456789abcdef")[d]
    ensures forall u: Unit :: IsHexUnit(u) <==> u in HEX_UNITS
    ensures forall i | 0 <= i < 6 :: LowerHexUnit(Ascii("ABCDEF")[i]) == Ascii("abcdef")[i]
    ensures forall u: Unit | u !in Ascii("ABCDEF") :: LowerHexUnit(u) == u
  {
    HexUnitsAre();
    CapitalsAre();
  }

  const HEX_UNITS: Text := Ascii("0123456789abcdefABCDEF")

  lemma HexUnitAt(i: nat)
    requires i < 22
    ensures HEX_UNITS[i] == if i < 10 then 48 + i else if i < 16 then 87 + i else 49 + i
  {
  }

  lemma HexUnitsListed(u: Unit)
    ensures IsHexUnit(u) ==> u in HEX_UNITS
  {
    if IsHexUnit(u) {
      HexUnitAt(if u < 58 then u - 48 else if u < 71 then u - 49 else u - 87);
    }
  }

  lemma HexUnitsAre()
    ensures forall u: Unit :: IsHexUnit(u) <==> u in HEX_UNITS
  {
    forall u: Unit ensures IsHexUnit(u) <==> u in HEX_UNITS {
      HexUnitsListed(u);
      if u in HEX_UNITS {
        var i :| 0 <= i < |HEX_UNITS| && HEX_UNITS[i] == u;
        HexUnitAt(i);
      }
    }
  }

  lemma CapitalsAre()
    ensures forall u: Unit :: 65 <= u < 71 <==> u in Ascii("ABCDEF")
  {
    var all := Ascii("ABCDEF");
    forall u: Unit ensures 65 <= u < 71 <==> u in all {
      if 65 <= u < 71 {
        assert all[u - 65] == u;
      }
    }
  }

  lemma KnownNumerals()
    ensures NatText(0) == Ascii("0") && NatText(1205) == Ascii("1205") && IntText(-37) == Ascii("-37")
  {
    assert NatText(120) == NatText(12) + [48];
  }

  function HexDigit(d: int): Unit
    requires 0 <= d < 16
  {
    if d < 10 then 48 + d else 87 + d
  }

  predicate IsHexUnit(u: Unit) {
    IsLowerHexUnit(u) || 65 <= u < 71
  }

  predicate IsLowerHexUnit(u: Unit) {
    IsDigit(u) || 97 <= u < 103
  }

  function LowerHexUnit(u: Unit): Unit {
    if 65 <= u < 71 then u + 32 else u
  }

  /** What a lower-case hex digit denotes. */
  function HexUnitValue(u: Unit): (d: int)
    ensures IsLowerHexUnit(u) ==> 0 <= d < 16
  {
    if u < 58 then u - 48 else u - 87
  }
}
