/** scripts/publish-catalog-bee.js: the bytes signBody hashes, publicKey || utf8(canonicalJson(body)). */
module Preimage {
  import opened Texts
  import opened CanonicalJson
  import opened JsonParser

  const REPLACEMENT: seq<Byte> := [0xEF, 0xBF, 0xBD]

  function EncodePoint(p: int): (b: seq<Byte>)
    requires 0 <= p < 0x11_0000
    ensures 1 <= |b| <= 4
  {
    if p < 0x80 then [p]
    else if p < 0x800 then [0xC0 + p / 64, 0x80 + p % 64]
    else if p < 0x1_0000 then [0xE0 + p / 4096, 0x80 + p / 64 % 64, 0x80 + p % 64]
    else [0xF0 + p / 262144, 0x80 + p / 4096 % 64, 0x80 + p / 64 % 64, 0x80 + p % 64]
  }

  function PairPoint(high: Unit, low: Unit): (p: int)
    requires IsHigh(high) && IsLow(low)
    ensures 0x1_0000 <= p < 0x11_0000
  {
    0x1_0000 + (high - 0xD800) * 0x400 + (low - 0xDC00)
  }

  /** b4a.from(text, 'utf8'): a lone surrogate becomes U+FFFD. */
  function Utf8(t: Text): seq<Byte> {
    if t == [] then []
    else if |t| >= 2 && IsHigh(t[0]) && IsLow(t[1]) then EncodePoint(PairPoint(t[0], t[1])) + Utf8(t[2..])
    else if IsHigh(t[0]) || IsLow(t[0]) then REPLACEMENT + Utf8(t[1..])
    else EncodePoint(t[0]) + Utf8(t[1..])
  }

  /** No lone surrogates. */
  predicate WellFormed(t: Text) {
    t == [] ||
    (if |t| >= 2 && IsHigh(t[0]) && IsLow(t[1]) then WellFormed(t[2..])
     else !IsHigh(t[0]) && !IsLow(t[0]) && WellFormed(t[1..]))
  }

  /** The point that starts `b` and how many bytes it takes. */
  function DecodePoint(b: seq<int>): (int, nat)
    requires b != []
  {
    if b[0] < 0x80 || |b| < 2 then (b[0], 1)
    else if b[0] < 0xE0 || |b| < 3 then ((b[0] - 0xC0) * 64 + b[1] - 0x80, 2)
    else if b[0] < 0xF0 || |b| < 4 then ((b[0] - 0xE0) * 4096 + (b[1] - 0x80) * 64 + b[2] - 0x80, 3)
    else ((b[0] - 0xF0) * 262144 + (b[1] - 0x80) * 4096 + (b[2] - 0x80) * 64 + b[3] - 0x80, 4)
  }

  function PointUnits(p: int): Text {
    if p < 0x1_0000 then [p % 0x1_0000] else [0xD800 + (p - 0x1_0000) / 0x400 % 0x400, 0xDC00 + p % 0x400]
  }

  function Decode(b: seq<int>): Text {
    if b == [] then []
    else
      var (p, n) := DecodePoint(b);
      PointUnits(p) + (if n <= |b| then Decode(b[n..]) else [])
  }

  lemma Split64(p: int)
    requires 0 <= p < 0x11_0000
    ensures p == p / 64 * 64 + p % 64
    ensures p == p / 4096 * 4096 + p / 64 % 64 * 64 + p % 64
    ensures p == p / 262144 * 262144 + p / 4096 % 64 * 4096 + p / 64 % 64 * 64 + p % 64
  {
    var q := p / 64;
    var r := q / 64;
    assert r == p / 4096 && r / 64 == p / 262144;
    assert p == 64 * q + p % 64 && q == 64 * r + q % 64 && r == 64 * (r / 64) + r % 64;
  }

  lemma DecodeEncodedPoint(p: int, more: seq<int>)
    requires 0 <= p < 0x11_0000
    ensures DecodePoint(EncodePoint(p) + more) == (p, |EncodePoint(p)|)
  {
    Split64(p);
    var e := EncodePoint(p);
    var b := e + more;
    assert forall i | 0 <= i < |e| :: b[i] == e[i];
  }

  lemma DecodeStep(p: int, more: seq<Byte>)
    requires 0 <= p < 0x11_0000
    ensures Decode(EncodePoint(p) + more) == PointUnits(p) + Decode(more)
  {
    DecodeEncodedPoint(p, more);
    assert (EncodePoint(p) + more)[|EncodePoint(p)|..] == more;
  }

  lemma PairPointUnits(high: Unit, low: Unit)
    requires IsHigh(high) && IsLow(low)
    ensures PointUnits(PairPoint(high, low)) == [high, low]
  {
  }

  lemma {:induction false} DecodeUtf8(t: Text)
    requires WellFormed(t)
    ensures Decode(Utf8(t)) == t
    decreases |t|
  {
    if t == [] {
    } else if |t| >= 2 && IsHigh(t[0]) && IsLow(t[1]) {
      DecodeUtf8(t[2..]);
      DecodeStep(PairPoint(t[0], t[1]), Utf8(t[2..]));
      DecodedPair(t);
    } else {
      DecodeUtf8(t[1..]);
      DecodeStep(t[0], Utf8(t[1..]));
      DecodedUnit(t);
    }
  }

  lemma DecodedPair(t: Text)
    requires |t| >= 2 && IsHigh(t[0]) && IsLow(t[1])
    ensures PointUnits(PairPoint(t[0], t[1])) + t[2..] == t
  {
    PairPointUnits(t[0], t[1]);
  }

  lemma DecodedUnit(t: Text)
    requires t != []
    ensures PointUnits(t[0]) + t[1..] == t
  {
  }

  // ---------------------------------------------------------------- printed text is well formed

  lemma {:induction false} WellFormedConcat(a: Text, b: Text)
    requires WellFormed(a) && WellFormed(b)
    ensures WellFormed(a + b)
    decreases |a|
  {
    if a == [] {
      assert a + b == b;
    } else if |a| >= 2 && IsHigh(a[0]) && IsLow(a[1]) {
      WellFormedConcat(a[2..], b);
      assert (a + b)[2..] == a[2..] + b;
    } else {
      WellFormedConcat(a[1..], b);
      assert (a + b)[1..] == a[1..] + b;
    }
  }

  predicate NoSurrogates(t: Text) {
    forall i | 0 <= i < |t| :: !IsHigh(t[i]) && !IsLow(t[i])
  }

  lemma {:induction false} NoSurrogatesWellFormed(t: Text)
    requires NoSurrogates(t)
    ensures WellFormed(t)
  {
    if t != [] {
      NoSurrogatesWellFormed(t[1..]);
    }
  }

  lemma {:induction false} EscapedWellFormed(s: Text)
    ensures WellFormed(Escaped(s))
    decreases |s|
  {
    if s != [] {
      if |s| >= 2 && IsHigh(s[0]) && IsLow(s[1]) {
        EscapedWellFormed(s[2..]);
        assert Escaped(s)[2..] == Escaped(s[2..]);
      } else {
        NoSurrogatesWellFormed(EscapeUnit(s[0]));
        EscapedWellFormed(s[1..]);
        WellFormedConcat(EscapeUnit(s[0]), Escaped(s[1..]));
      }
    }
  }

  lemma WellFormedBracketed(open: Unit, t: Text, close: Unit)
    requires WellFormed(t) && NoSurrogates([open, close])
    ensures WellFormed([open] + t + [close])
  {
    assert !IsHigh([open, close][0]) && !IsLow([open, close][0]);
    assert !IsHigh([open, close][1]) && !IsLow([open, close][1]);
    NoSurrogatesWellFormed([open]);
    NoSurrogatesWellFormed([close]);
    WellFormedConcat([open], t);
    WellFormedConcat([open] + t, [close]);
  }

  lemma QuotedWellFormed(s: Text)
    ensures WellFormed(Quoted(s))
  {
    EscapedWellFormed(s);
    WellFormedBracketed(QUOTE, Escaped(s), QUOTE);
  }

  /** Whatever strings a value holds, its printed text has no lone surrogate, so UTF-8 loses nothing. */
  lemma {:induction false} PrintWellFormed(v: Value)
    ensures WellFormed(Print(v))
    decreases v, 1, 0
  {
    match v
    case Arr(items) =>
      SlotsWellFormed(items);
      WellFormedBracketed(OPEN_BRACKET, Slots(items), CLOSE_BRACKET);
    case Obj(m) =>
      MembersWellFormed(v, SortedKeys(m.Keys));
      WellFormedBracketed(OPEN_BRACE, Members(v, SortedKeys(m.Keys)), CLOSE_BRACE);
    case _ => PrintScalarWellFormed(v);
  }

  lemma PrintScalarWellFormed(v: Value)
    requires !v.Arr? && !v.Obj?
    ensures WellFormed(Print(v))
  {
    match v
    case Str(s) => QuotedWellFormed(s);
    case Num(n) => NumberTextWellFormed(n);
    case _ => NoSurrogatesWellFormed(Print(v));
  }

  lemma NumberTextWellFormed(n: Number)
    ensures WellFormed(NumberText(n))
  {
    if n.Zero? || n.Decimal? {
      ReadNumberText(n);
      NumberUnitsWellFormed(NumberText(n));
    } else {
      NoSurrogatesWellFormed(NULL_TEXT);
    }
  }

  lemma NumberUnitsWellFormed(t: Text)
    requires forall i | 0 <= i < |t| :: IsNumberUnit(t[i])
    ensures WellFormed(t)
  {
    NoSurrogatesWellFormed(t);
  }

  lemma {:induction false} SlotsWellFormed(items: seq<Value>)
    ensures WellFormed(Slots(items))
    decreases items, 0, 0
  {
    if items != [] {
      var first := if items[0].Undefined? then [] else Print(items[0]);
      PrintWellFormed(items[0]);
      if |items| > 1 {
        SlotsWellFormed(items[1..]);
        assert ([COMMA] + Slots(items[1..]))[1..] == Slots(items[1..]);
        WellFormedConcat(first, [COMMA] + Slots(items[1..]));
      } else {
        assert Slots(items) == first;
      }
    }
  }

  lemma {:induction false} MembersWellFormed(v: Value, keys: seq<Text>)
    requires v.Obj? && forall k | k in keys :: k in v.members
    ensures WellFormed(Members(v, keys))
    decreases v, 0, |keys|
  {
    if keys != [] {
      var item := Print(v.members[keys[0]]);
      QuotedWellFormed(keys[0]);
      PrintWellFormed(v.members[keys[0]]);
      NoSurrogatesWellFormed([COLON]);
      WellFormedConcat(Quoted(keys[0]), [COLON]);
      WellFormedConcat(Quoted(keys[0]) + [COLON], item);
      var tail := if |keys| == 1 then [] else [COMMA] + Members(v, keys[1..]);
      if |keys| > 1 {
        MembersWellFormed(v, keys[1..]);
        assert tail[1..] == Members(v, keys[1..]);
      }
      WellFormedConcat(Quoted(keys[0]) + [COLON] + item, tail);
    }
  }

  // ---------------------------------------------------------------- the preimage

  /** What signBody hands to SHA-256; a body that prints to no text at all is refused before. */
  ghost function SignedBytes(publicKey: seq<Byte>, body: Value): seq<Byte>
    requires |publicKey| == 32 && !body.Undefined?
  {
    publicKey + Utf8(Print(body))
  }

  /** The signed bytes determine the key and the body, and nothing less than both. */
  lemma SignedBytesEqualIff(k1: seq<Byte>, v1: Value, k2: seq<Byte>, v2: Value)
    requires |k1| == |k2| == 32 && !v1.Undefined? && !v2.Undefined?
    ensures SignedBytes(k1, v1) == SignedBytes(k2, v2) <==> k1 == k2 && Norm(v1) == Norm(v2)
    ensures v1.IsJson() && v2.IsJson() ==> (SignedBytes(k1, v1) == SignedBytes(k2, v2) <==> k1 == k2 && v1 == v2)
  {
    var b1, b2 := SignedBytes(k1, v1), SignedBytes(k2, v2);
    assert b1[..32] == k1 && b2[..32] == k2;
    assert b1[32..] == Utf8(Print(v1)) && b2[32..] == Utf8(Print(v2));
    PrintWellFormed(v1);
    PrintWellFormed(v2);
    DecodeUtf8(Print(v1));
    DecodeUtf8(Print(v2));
    PrintEqualIff(v1, v2);
    if v1.IsJson() && v2.IsJson() {
      NormOfJson(v1);
      NormOfJson(v2);
    }
  }

  /** The 32 bytes of the key come first, and what follows decodes to the printed body. */
  lemma SignedLayout(publicKey: seq<Byte>, body: Value)
    requires |publicKey| == 32 && !body.Undefined?
    ensures SignedBytes(publicKey, body)[..32] == publicKey
    ensures Decode(SignedBytes(publicKey, body)[32..]) == Print(body)
  {
    assert SignedBytes(publicKey, body)[32..] == Utf8(Print(body));
    PrintWellFormed(body);
    DecodeUtf8(Print(body));
  }

  /** One, two, three and four bytes, and what a lone surrogate becomes. */
  lemma KnownBytes()
    ensures EncodePoint(0x41) == [0x41] && EncodePoint(0xE9) == [0xC3, 0xA9] && EncodePoint(0x20AC) == [0xE2, 0x82, 0xAC]
    ensures EncodePoint(PairPoint(0xD83D, 0xDE00)) == [0xF0, 0x9F, 0x98, 0x80]
    ensures Utf8([0xD83D]) == [0xEF, 0xBF, 0xBD] && Utf8([0x20AC]) == [0xE2, 0x82, 0xAC]
    ensures Utf8([0xD83D, 0xDE00]) == [0xF0, 0x9F, 0x98, 0x80]
  {
    assert [0xD83D][1..] == [] && [0x20AC][1..] == [] && [0xD83D, 0xDE00][2..] == [];
  }
}
