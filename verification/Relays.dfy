/** The simulated relays of scripts/simulate-blind-atomic-custody.js, their public keys and the ways of picking some. */
module Relays {
  import opened Texts
  import opened JsNumbers

  /** Operator `op-<n>` and region `region-<n>` are kept as n; every relay has the features asked for. */
  datatype Relay = Relay(
    pubkey: Text,
    operator: int,
    region: int,
    reliability: real,
    latencyMs: int,
    score: real,
    malicious: bool)

  ghost predicate DistinctKeys(relays: seq<Relay>) {
    forall i, j | 0 <= i < j < |relays| :: relays[i].pubkey != relays[j].pubkey
  }

  function Keys(relays: seq<Relay>): set<Text> {
    set i | 0 <= i < |relays| :: relays[i].pubkey
  }

  // ---------------------------------------------------------------- public keys

  /** n.toString(16) */
  function HexText(n: nat): (t: Text)
    ensures t != []
  {
    if n < 16 then [HexDigit(n)] else HexText(n / 16) + [HexDigit(n % 16)]
  }

  function HexOf(t: Text): int {
    if t == [] then 0 else 16 * HexOf(t[..|t| - 1]) + HexUnitValue(t[|t| - 1])
  }

  function PadStart(t: Text, width: nat): (r: Text)
    ensures |t| >= width ==> r == t
    ensures |t| < width ==> |r| == width
  {
    if |t| >= width then t else seq(width - |t|, i => DIGIT_0) + t
  }

  function PadEnd(t: Text, width: nat): (r: Text)
    ensures t <= r
  {
    if |t| >= width then t else t + seq(width - |t|, i => DIGIT_0)
  }

  function HexFromInt(relayIndex: nat, operatorIndex: nat): Text {
    PadEnd(PadStart(HexText(relayIndex), 8) + PadStart(HexText(operatorIndex), 8), 64)
  }

  lemma HexOfSnoc(t: Text, u: Unit)
    ensures HexOf(t + [u]) == 16 * HexOf(t) + HexUnitValue(u)
  {
    assert (t + [u])[..|t|] == t;
  }

  lemma {:induction false} HexRoundTrip(n: nat)
    ensures HexOf(HexText(n)) == n
  {
    if n < 16 {
      HexOfSnoc([], HexDigit(n));
      assert [] + [HexDigit(n)] == HexText(n);
    } else {
      HexRoundTrip(n / 16);
      HexOfSnoc(HexText(n / 16), HexDigit(n % 16));
    }
  }

  lemma {:induction false} HexOfPadded(zeros: nat, t: Text)
    ensures HexOf(seq(zeros, i => DIGIT_0) + t) == HexOf(t)
    decreases |t|, zeros
  {
    var pad := seq(zeros, i => DIGIT_0);
    if t != [] {
      HexOfPadded(zeros, t[..|t| - 1]);
      assert pad + t == (pad + t[..|t| - 1]) + [t[|t| - 1]];
      HexOfSnoc(pad + t[..|t| - 1], t[|t| - 1]);
    } else if zeros > 0 {
      HexOfPadded(zeros - 1, []);
      assert pad + t == (seq(zeros - 1, i => DIGIT_0) + []) + [DIGIT_0];
      HexOfSnoc(seq(zeros - 1, i => DIGIT_0) + [], DIGIT_0);
    } else {
      assert pad + t == [];
    }
  }

  lemma Pow2Nibble(k: nat)
    ensures Pow2(k + 4) == 16 * Pow2(k)
  {
    assert Pow2(k + 4) == 2 * Pow2(k + 3);
    assert Pow2(k + 2) == 2 * Pow2(k + 1);
  }

  lemma {:induction false} HexLength(n: nat, width: nat)
    requires width >= 1 && n < Pow2(4 * width)
    ensures |HexText(n)| <= width
  {
    assert Pow2(4) == 16;
    if n >= 16 {
      Pow2Nibble(4 * width - 4);
      HexLength(n / 16, width - 1);
    }
  }

  /** Relay indices below 2^32 are read off the first eight units of the key. */
  lemma KeyPrefix(relayIndex: nat, operatorIndex: nat)
    requires relayIndex < TWO32
    ensures |HexFromInt(relayIndex, operatorIndex)| >= 8
    ensures HexOf(HexFromInt(relayIndex, operatorIndex)[..8]) == relayIndex
  {
    var hex := HexText(relayIndex);
    var padded := PadStart(hex, 8);
    Pow2Word();
    HexLength(relayIndex, 8);
    HexRoundTrip(relayIndex);
    HexOfPadded(8 - |hex|, hex);
    assert |hex| == 8 ==> seq(8 - |hex|, i => DIGIT_0) + hex == hex;
    assert HexFromInt(relayIndex, operatorIndex)[..8] == padded;
  }

  /** Generated keys are distinct for every network of up to 2^32 relays, whatever their operators ... */
  lemma KeysDistinct(i: nat, j: nat, operatorI: nat, operatorJ: nat)
    requires i < TWO32 && j < TWO32 && i != j
    ensures HexFromInt(i, operatorI) != HexFromInt(j, operatorJ)
  {
    KeyPrefix(i, operatorI);
    KeyPrefix(j, operatorJ);
  }

  /** ... and not beyond: relay 2^32 repeats the key of relay 2^28. */
  lemma KeysCollide()
    ensures HexFromInt(0x1000_0000, 0) == HexFromInt(0x1_0000_0000, 0)
  {
    PowerTexts();
    assert PadStart(HexText(0), 8) == [48, 48, 48, 48, 48, 48, 48, 48];
  }

  lemma PowerTexts()
    ensures HexText(0x1000_0000) == [49, 48, 48, 48, 48, 48, 48, 48]
    ensures HexText(0x1_0000_0000) == [49, 48, 48, 48, 48, 48, 48, 48, 48]
  {
    assert HexText(0x1_0000) == [49, 48, 48, 48, 48] by {
      assert HexText(0x100) == [49, 48, 48];
    }
    assert HexText(0x1000_0000) == [49, 48, 48, 48, 48, 48, 48, 48] by {
      assert HexText(0x100_0000) == [49, 48, 48, 48, 48, 48, 48];
    }
  }

  /** The first n keys differ, whoever runs the relays. */
  ghost predicate AlwaysDistinct(n: nat) {
    forall i: nat, j: nat, a: nat, b: nat | i < j < n :: HexFromInt(i, a) != HexFromInt(j, b)
  }

  /** So up to 2^32 relays keys never repeat, and beyond they can. */
  lemma AlwaysDistinctIff(n: nat)
    ensures AlwaysDistinct(n) <==> n <= TWO32
  {
    if n <= TWO32 {
      forall i: nat, j: nat, a: nat, b: nat | i < j < n ensures HexFromInt(i, a) != HexFromInt(j, b) {
        KeysDistinct(i, j, a, b);
      }
    } else {
      KeysCollide();
    }
  }

  /** Relay 0x1a3 of operator 15: both numbers in eight hex digits, then zeros. */
  lemma KnownKey(i: nat, operator: nat)
    requires i == 0x1a3 && operator == 15
    ensures HexFromInt(i, operator) == Ascii("000001a30000000f") + seq(48, k => DIGIT_0)
  {
    assert HexText(i) == [49, 97, 51] by {
      assert HexText(26) == [49, 97];
    }
    assert PadStart(HexText(i), 8) == [48, 48, 48, 48, 48, 49, 97, 51];
    assert PadStart(HexText(operator), 8) == [48, 48, 48, 48, 48, 48, 48, 102];
    assert PadStart(HexText(i), 8) + PadStart(HexText(operator), 8) == Ascii("000001a30000000f");
  }
}
