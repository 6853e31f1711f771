/** A parser that undoes the canonical printer, and what follows for signed preimages. */
module JsonParser {
  import opened Wrappers
  import opened Texts
  import opened CanonicalJson

  datatype Parsed<+T> = Fail | Ok(value: T, rest: Text)

  // ---------------------------------------------------------------- numbers

  predicate IsNumberUnit(u: Unit) {
    IsDigit(u) || u == MINUS || u == PLUS || u == DOT || u == LOWER_E
  }

  /** How many leading units of `t` can belong to a number. */
  function Span(t: Text): (n: nat)
    ensures n <= |t|
  {
    if t == [] || !IsNumberUnit(t[0]) then 0 else 1 + Span(t[1..])
  }

  function LeadingZeros(t: Text): (n: nat)
    ensures n <= |t|
  {
    if t == [] || t[0] != DIGIT_0 then 0 else 1 + LeadingZeros(t[1..])
  }

  function DropTrailingZeros(t: Text): (r: Text)
    ensures |r| <= |t|
  {
    if t == [] || t[|t| - 1] != DIGIT_0 then t else DropTrailingZeros(t[..|t| - 1])
  }

  /** whole.fraction * 10^exponent as a number. */
  function Assemble(neg: bool, l: Layout): Numeral {
    var all := l.whole + l.fraction;
    var zeros := LeadingZeros(all);
    var digits := DropTrailingZeros(all[zeros..]);
    if digits == [] then Zero(neg) else Decimal(neg, digits, |l.whole| + l.exponent - zeros)
  }

  function ReadExponent(t: Text): Option<int> {
    if t == [] then Some(0)
    else if |t| < 3 || t[0] != LOWER_E || !AllDigits(t[2..]) then None
    else
      var n: int := NatOf(t[2..]);
      if t[1] == PLUS then Some(n) else if t[1] == MINUS then Some(-n) else None
  }

  function ReadLayout(t: Text): Option<Layout> {
    var e := IndexOf(t, LOWER_E);
    var mantissa := t[..e];
    var d := IndexOf(mantissa, DOT);
    var whole := mantissa[..d];
    var fraction := if d < |mantissa| then mantissa[d + 1..] else [];
    var exponent := ReadExponent(t[e..]);
    if !AllDigits(whole) || !AllDigits(fraction) || exponent.None? then None
    else Some(Layout(whole, fraction, exponent.value))
  }

  function ReadNumber(t: Text): Option<Number> {
    var neg := t != [] && t[0] == MINUS;
    var l := ReadLayout(if neg then t[1..] else t);
    if l.None? || !Assemble(neg, l.value).Valid() then None else Some(Assemble(neg, l.value))
  }

  // ---------------------------------------------------------------- strings

  function HexValue(u: Unit): Option<int> {
    if IsHexUnit(u) then Some(HexUnitValue(LowerHexUnit(u))) else None
  }

  function Hex4(t: Text): Option<Unit>
    requires |t| == 4
  {
    var a, b, c, d := HexValue(t[0]), HexValue(t[1]), HexValue(t[2]), HexValue(t[3]);
    if a.None? || b.None? || c.None? || d.None? then None
    else
      assert 0 <= a.value < 16 && 0 <= b.value < 16 && 0 <= c.value < 16 && 0 <= d.value < 16;
      Some(a.value * 4096 + b.value * 256 + c.value * 16 + d.value)
  }

  /** The unit that a one-letter escape stands for. */
  function ShortEscape(u: Unit): Option<Unit> {
    if u == 98 then Some(8)
    else if u == 116 then Some(9)
    else if u == 110 then Some(10)
    else if u == 102 then Some(12)
    else if u == 114 then Some(13)
    else if u == QUOTE || u == BACKSLASH || u == 47 then Some(u)
    else None
  }

  /** One `char` of section 7 of RFC 8259. */
  function ParseChar(t: Text): (p: Parsed<Unit>)
    requires t != []
    ensures p.Ok? ==> |p.rest| < |t|
  {
    if t[0] < 32 || t[0] == QUOTE then Fail
    else if t[0] != BACKSLASH then Ok(t[0], t[1..])
    else if |t| >= 6 && t[1] == LOWER_U then
      var u := Hex4(t[2..6]);
      if u.None? then Fail else Ok(u.value, t[6..])
    else if |t| >= 2 && ShortEscape(t[1]).Some? then Ok(ShortEscape(t[1]).value, t[2..])
    else Fail
  }

  /** The characters up to and including the closing quotation mark. */
  function ParseChars(t: Text): (p: Parsed<Text>)
    ensures p.Ok? ==> |p.rest| < |t|
    decreases |t|
  {
    if t == [] then Fail
    else if t[0] == QUOTE then Ok([], t[1..])
    else
      var c := ParseChar(t);
      if c.Fail? then Fail
      else
        var more := ParseChars(c.rest);
        if more.Fail? then Fail else Ok([c.value] + more.value, more.rest)
  }

  // ---------------------------------------------------------------- values

  function ParseWord(t: Text): (p: Parsed<Value>)
    ensures p.Ok? ==> |p.rest| < |t|
  {
    if NULL_TEXT <= t then Ok(Null, t[4..])
    else if TRUE_TEXT <= t then Ok(Bool(true), t[4..])
    else if FALSE_TEXT <= t then Ok(Bool(false), t[5..])
    else if UNDEFINED_TEXT <= t then Ok(Undefined, t[9..])
    else Fail
  }

  function ParseNumber(t: Text): (p: Parsed<Value>)
    ensures p.Ok? ==> |p.rest| < |t|
  {
    var n := Span(t);
    var number := ReadNumber(t[..n]);
    if n == 0 || number.None? then Fail else Ok(Num(number.value), t[n..])
  }

  function ParseString(t: Text): (p: Parsed<Value>)
    requires t != []
    ensures p.Ok? ==> |p.rest| < |t|
  {
    var s := ParseChars(t[1..]);
    if s.Fail? then Fail else Ok(Str(s.value), s.rest)
  }

  function ParseValue(t: Text): (p: Parsed<Value>)
    ensures p.Ok? ==> |p.rest| < |t|
    decreases |t|, 1
  {
    if t == [] then Fail
    else if t[0] == QUOTE then ParseString(t)
    else if t[0] == OPEN_BRACKET then ParseArray(t)
    else if t[0] == OPEN_BRACE then ParseObject(t)
    else if IsNumberUnit(t[0]) then ParseNumber(t)
    else ParseWord(t)
  }

  function ParseArray(t: Text): (p: Parsed<Value>)
    requires t != []
    ensures p.Ok? ==> |p.rest| < |t|
    decreases |t|, 0
  {
    if |t| >= 2 && t[1] == CLOSE_BRACKET then Ok(Arr([]), t[2..])
    else
      var items := ParseSlots(t[1..]);
      if items.Fail? then Fail else Ok(Arr(items.value), items.rest)
  }

  function ParseObject(t: Text): (p: Parsed<Value>)
    requires t != []
    ensures p.Ok? ==> |p.rest| < |t|
    decreases |t|, 0
  {
    if |t| >= 2 && t[1] == CLOSE_BRACE then Ok(Obj(map[]), t[2..])
    else
      var members := ParseMembers(t[1..]);
      if members.Fail? then Fail else Ok(Obj(members.value), members.rest)
  }

  /** Array slots, empty ones being undefined, up to and including the closing bracket. */
  function ParseSlots(t: Text): (p: Parsed<seq<Value>>)
    ensures p.Ok? ==> |p.rest| < |t|
    decreases |t|, 2
  {
    if t == [] then Fail
    else
      var item := if t[0] == COMMA || t[0] == CLOSE_BRACKET then Ok(Undefined, t) else ParseValue(t);
      if item.Fail? || item.rest == [] then Fail
      else if item.rest[0] == CLOSE_BRACKET then Ok([item.value], item.rest[1..])
      else if item.rest[0] != COMMA then Fail
      else
        var more := ParseSlots(item.rest[1..]);
        if more.Fail? then Fail else Ok([item.value] + more.value, more.rest)
  }

  /** Object members up to and including the closing brace. */
  function ParseMembers(t: Text): (p: Parsed<map<Text, Value>>)
    ensures p.Ok? ==> |p.rest| < |t|
    decreases |t|, 2
  {
    if t == [] || t[0] != QUOTE then Fail
    else
      var key := ParseChars(t[1..]);
      if key.Fail? || key.rest == [] || key.rest[0] != COLON then Fail
      else
        var item := ParseValue(key.rest[1..]);
        if item.Fail? || item.rest == [] then Fail
        else if item.rest[0] == CLOSE_BRACE then Ok(map[key.value := item.value], item.rest[1..])
        else if item.rest[0] != COMMA then Fail
        else
          var more := ParseMembers(item.rest[1..]);
          if more.Fail? then Fail else Ok(map[key.value := item.value] + more.value, more.rest)
  }

  // ---------------------------------------------------------------- numbers read back

  lemma {:induction false} SpanIs(t: Text, rest: Text)
    requires forall i | 0 <= i < |t| :: IsNumberUnit(t[i])
    requires rest == [] || !IsNumberUnit(rest[0])
    ensures Span(t + rest) == |t|
  {
    if t == [] {
      assert t + rest == rest;
    } else {
      SpanIs(t[1..], rest);
      assert (t + rest)[1..] == t[1..] + rest;
    }
  }

  lemma {:induction false} LeadingZerosIs(zeros: nat, t: Text)
    requires t != [] ==> t[0] != DIGIT_0
    ensures LeadingZeros(Zeros(zeros) + t) == zeros
  {
    if zeros == 0 {
      assert Zeros(0) + t == t;
    } else {
      LeadingZerosIs(zeros - 1, t);
      assert (Zeros(zeros) + t)[1..] == Zeros(zeros - 1) + t;
    }
  }

  lemma {:induction false} DropTrailingZerosIs(t: Text, zeros: nat)
    requires t != [] ==> t[|t| - 1] != DIGIT_0
    ensures DropTrailingZeros(t + Zeros(zeros)) == t
  {
    var all := t + Zeros(zeros);
    if zeros == 0 {
      assert all == t;
    } else {
      DropTrailingZerosIs(t, zeros - 1);
      assert all[..|all| - 1] == t + Zeros(zeros - 1);
    }
  }

  lemma CoreDigits(before: nat, digits: Text, after: nat)
    requires digits != [] && digits[0] != DIGIT_0 && digits[|digits| - 1] != DIGIT_0
    ensures var all := Zeros(before) + digits + Zeros(after);
            LeadingZeros(all) == before && DropTrailingZeros(all[before..]) == digits
  {
    var tail := digits + Zeros(after);
    assert Zeros(before) + digits + Zeros(after) == Zeros(before) + tail;
    LeadingZerosIs(before, tail);
    assert (Zeros(before) + tail)[before..] == tail;
    DropTrailingZerosIs(digits, after);
  }

  lemma AssembleIs(neg: bool, digits: Text, l: Layout, before: nat, after: nat)
    requires digits != [] && digits[0] != DIGIT_0 && digits[|digits| - 1] != DIGIT_0
    requires l.whole + l.fraction == Zeros(before) + digits + Zeros(after)
    ensures Assemble(neg, l) == Decimal(neg, digits, |l.whole| + l.exponent - before)
  {
    CoreDigits(before, digits, after);
  }

  /** All the layout adds to the digits is zeros around them. */
  lemma LayOutParts(digits: Text, point: int) returns (before: nat, after: nat)
    requires digits != [] && AllDigits(digits)
    ensures var l := LayOut(digits, point);
            && l.whole != [] && AllDigits(l.whole) && AllDigits(l.fraction)
            && l.whole + l.fraction == Zeros(before) + digits + Zeros(after)
            && |l.whole| + l.exponent - before == point
  {
    var k := |digits|;
    before := if -6 < point <= 0 then 1 - point else 0;
    after := if k <= point <= 21 then point - k else 0;
  }

  /** Plain notation between 10^-7 and 10^21, an exponent outside. */
  lemma PlainNotation(digits: Text, point: int)
    requires digits != []
    ensures LayOut(digits, point).exponent == 0 <==> -6 < point <= 21
  {
  }

  lemma NoLetterIn(t: Text)
    requires AllDigits(t)
    ensures LOWER_E !in t
  {
  }

  lemma ExponentInText(l: Layout)
    requires AllDigits(l.whole) && AllDigits(l.fraction)
    ensures LOWER_E in LayoutText(l) <==> l.exponent != 0
  {
    NoLetterIn(l.whole);
    NoLetterIn(l.fraction);
    var t := ExponentText(l.exponent);
    if l.exponent != 0 {
      assert t[0] == LOWER_E;
      assert LayoutText(l)[|LayoutText(l)| - |t|] == LOWER_E;
    }
  }

  /** A number is printed with an exponent exactly when it lies outside 10^-7 to 10^21. */
  lemma ExponentPrintedIff(neg: bool, digits: Text, point: int)
    requires digits != [] && Decimal(neg, digits, point).Valid()
    ensures LOWER_E in NumberText(Decimal(neg, digits, point)) <==> !(-6 < point <= 21)
  {
    var before, after := LayOutParts(digits, point);
    PlainNotation(digits, point);
    ExponentInText(LayOut(digits, point));
  }

  /** Laying digits out and assembling them again gives the number back, in each of the four forms. */
  lemma AssembleLayOut(neg: bool, digits: Text, point: int)
    requires digits != [] && Decimal(neg, digits, point).Valid()
    ensures Assemble(neg, LayOut(digits, point)) == Decimal(neg, digits, point)
    ensures var l := LayOut(digits, point); l.whole != [] && AllDigits(l.whole) && AllDigits(l.fraction)
  {
    var before, after := LayOutParts(digits, point);
    AssembleIs(neg, digits, LayOut(digits, point), before, after);
  }

  lemma ReadExponentText(e: int)
    ensures ReadExponent(ExponentText(e)) == Some(e)
  {
    if e != 0 {
      var n := if e < 0 then -e else e;
      NatRoundTrip(n);
      assert ExponentText(e)[2..] == NatText(n);
    }
  }

  lemma ReadLayoutText(l: Layout)
    requires AllDigits(l.whole) && AllDigits(l.fraction)
    ensures ReadLayout(LayoutText(l)) == Some(l)
  {
    var point := if l.fraction == [] then [] else [DOT] + l.fraction;
    CutAt(l.whole + point, l.whole, point, DOT);
    CutAt(LayoutText(l), l.whole + point, ExponentText(l.exponent), LOWER_E);
    assert l.fraction != [] ==> point[1..] == l.fraction;
    ReadExponentText(l.exponent);
  }

  lemma LayoutTextUnits(l: Layout)
    requires AllDigits(l.whole) && AllDigits(l.fraction)
    ensures forall i | 0 <= i < |LayoutText(l)| :: IsNumberUnit(LayoutText(l)[i])
  {
  }

  lemma ReadSignedLayout(neg: bool, l: Layout)
    requires AllDigits(l.whole) && AllDigits(l.fraction) && l.whole != [] && Assemble(neg, l).Valid()
    ensures var t := (if neg then [MINUS] else []) + LayoutText(l);
            ReadNumber(t) == Some(Assemble(neg, l)) && forall i | 0 <= i < |t| :: IsNumberUnit(t[i])
  {
    ReadLayoutText(l);
    LayoutTextUnits(l);
    var t := (if neg then [MINUS] else []) + LayoutText(l);
    assert LayoutText(l)[0] == l.whole[0];
    if neg {
      assert t[1..] == LayoutText(l);
    } else {
      assert t == LayoutText(l);
    }
  }

  lemma ReadDecimalText(n: Number)
    requires n.Decimal?
    ensures ReadNumber(NumberText(n)) == Some(n)
    ensures NumberText(n) != [] && forall i | 0 <= i < |NumberText(n)| :: IsNumberUnit(NumberText(n)[i])
  {
    var l := LayOut(n.digits, n.point);
    AssembleLayOut(n.neg, n.digits, n.point);
    ReadSignedLayout(n.neg, l);
  }

  lemma ReadNumberText(n: Number)
    requires n.Zero? || n.Decimal?
    ensures ReadNumber(NumberText(n)) == Some(if n.Zero? then Zero(false) else n)
    ensures NumberText(n) != [] && forall i | 0 <= i < |NumberText(n)| :: IsNumberUnit(NumberText(n)[i])
  {
    if n.Zero? {
      ReadZero();
      assert NumberText(n) == [DIGIT_0];
    } else {
      ReadDecimalText(n);
    }
  }

  lemma ReadZero()
    ensures ReadNumber([DIGIT_0]) == Some(Zero(false))
  {
    var l := Layout([DIGIT_0], [], 0);
    LeadingZerosIs(1, []);
    assert Zeros(1) + [] == [DIGIT_0] == l.whole + l.fraction;
    ReadSignedLayout(false, l);
    assert [] + LayoutText(l) == [DIGIT_0];
  }

  // ---------------------------------------------------------------- strings read back

  lemma HexValueOf(d: int)
    requires 0 <= d < 16
    ensures HexValue(HexDigit(d)) == Some(d)
  {
  }

  lemma Hex4Digits(u: Unit, t: Text)
    requires t == [HexDigit(u / 4096), HexDigit(u / 256 % 16), HexDigit(u / 16 % 16), HexDigit(u % 16)]
    ensures Hex4(t) == Some(u)
  {
    var a, b, c, d := u / 4096, u / 256 % 16, u / 16 % 16, u % 16;
    HexValueOf(a);
    HexValueOf(b);
    HexValueOf(c);
    HexValueOf(d);
    SplitHex(u);
  }

  lemma SplitHex(u: Unit)
    ensures u == u / 4096 * 4096 + u / 256 % 16 * 256 + u / 16 % 16 * 16 + u % 16
  {
    var q := u / 16;
    var r := q / 16;
    assert r == u / 256 && r / 16 == u / 4096;
    assert u == 16 * q + u % 16 && q == 16 * r + q % 16 && r == 16 * (r / 16) + r % 16;
  }

  lemma ParseHexEscape(u: Unit, rest: Text)
    requires |EscapeUnit(u)| == 6
    ensures ParseChar(EscapeUnit(u) + rest) == Ok(u, rest)
  {
    var t := EscapeUnit(u) + rest;
    assert t[6..] == rest;
    Hex4Digits(u, t[2..6]);
  }

  lemma ParseEscapedUnit(u: Unit, rest: Text)
    ensures ParseChar(EscapeUnit(u) + rest) == Ok(u, rest)
    ensures EscapeUnit(u)[0] != QUOTE
  {
    if |EscapeUnit(u)| == 6 {
      ParseHexEscape(u, rest);
    } else {
      assert (EscapeUnit(u) + rest)[|EscapeUnit(u)|..] == rest;
    }
  }

  lemma ParseCharsStep(t: Text, u: Unit, more: Text, s: Text, rest: Text)
    requires t != [] && t[0] != QUOTE && ParseChar(t) == Ok(u, more)
    requires ParseChars(more) == Ok(s, rest)
    ensures ParseChars(t) == Ok([u] + s, rest)
  {
  }

  lemma ParseLiteralUnit(u: Unit, more: Text, s: Text, rest: Text)
    requires u >= 128 && ParseChars(more) == Ok(s, rest)
    ensures ParseChars([u] + more) == Ok([u] + s, rest)
  {
    assert ([u] + more)[1..] == more;
    ParseCharsStep([u] + more, u, more, s, rest);
  }

  lemma ParseEscapedPair(s: Text, more: Text, rest: Text)
    requires |s| >= 2 && IsHigh(s[0]) && IsLow(s[1])
    requires ParseChars(more) == Ok(s[2..], rest)
    ensures ParseChars(s[..2] + more) == Ok(s, rest)
  {
    var high, low, tail := s[0], s[1], s[2..];
    ParseLiteralUnit(low, more, tail, rest);
    ParseLiteralUnit(high, [low] + more, [low] + tail, rest);
    assert s[..2] + more == [high] + ([low] + more);
    assert s == [high] + ([low] + tail);
  }

  lemma {:induction false} ParseEscaped(s: Text, rest: Text)
    ensures ParseChars(Escaped(s) + [QUOTE] + rest) == Ok(s, rest)
    decreases |s|
  {
    if s == [] {
      assert (Escaped(s) + [QUOTE] + rest)[1..] == rest;
    } else if |s| >= 2 && IsHigh(s[0]) && IsLow(s[1]) {
      ParseEscaped(s[2..], rest);
      ParseEscapedPair(s, Escaped(s[2..]) + [QUOTE] + rest, rest);
      RegroupChars(s[..2], Escaped(s[2..]), rest);
    } else {
      ParseEscaped(s[1..], rest);
      ParseEscapedFirst(s, Escaped(s[1..]) + [QUOTE] + rest, rest);
      RegroupChars(EscapeUnit(s[0]), Escaped(s[1..]), rest);
    }
  }

  lemma ParseEscapedFirst(s: Text, more: Text, rest: Text)
    requires s != [] && ParseChars(more) == Ok(s[1..], rest)
    ensures ParseChars(EscapeUnit(s[0]) + more) == Ok(s, rest)
  {
    ParseEscapedUnit(s[0], more);
    ParseCharsStep(EscapeUnit(s[0]) + more, s[0], more, s[1..], rest);
    assert s == [s[0]] + s[1..];
  }

  lemma RegroupChars(first: Text, more: Text, rest: Text)
    ensures first + more + [QUOTE] + rest == first + (more + [QUOTE] + rest)
  {
  }

  // ---------------------------------------------------------------- values read back

  predicate Delimited(rest: Text) {
    rest == [] || !IsNumberUnit(rest[0])
  }

  lemma PrintStarts(v: Value)
    ensures Print(v) != []
    ensures Print(v)[0] != COMMA && Print(v)[0] != CLOSE_BRACKET && Print(v)[0] != CLOSE_BRACE
  {
    if v.Num? && (v.n.Zero? || v.n.Decimal?) {
      ReadNumberText(v.n);
      assert IsNumberUnit(NumberText(v.n)[0]);
    }
  }

  lemma ParsePrintedWord(v: Value, rest: Text)
    requires v.Undefined? || v.Null? || v.Bool? || (v.Num? && (v.n.NaN? || v.n.Infinite?))
    ensures ParseValue(Print(v) + rest) == Ok(Norm(v), rest)
  {
    var word := Print(v);
    var t := word + rest;
    assert word <= t && t[|word|..] == rest && t[0] == word[0];
  }

  lemma ParseNumberIs(t: Text, n: Number, rest: Text)
    requires t != [] && ReadNumber(t) == Some(n) && Delimited(rest)
    requires forall i | 0 <= i < |t| :: IsNumberUnit(t[i])
    ensures ParseNumber(t + rest) == Ok(Num(n), rest)
  {
    SpanIs(t, rest);
    assert (t + rest)[..|t|] == t && (t + rest)[|t|..] == rest;
  }

  lemma ParseValueNumber(t: Text)
    requires t != [] && IsNumberUnit(t[0])
    ensures ParseValue(t) == ParseNumber(t)
  {
  }

  lemma ParsePrintedNumber(n: Number, rest: Text)
    requires (n.Zero? || n.Decimal?) && Delimited(rest)
    ensures ParseValue(NumberText(n) + rest) == Ok(Norm(Num(n)), rest)
  {
    ReadNumberText(n);
    var t: Text := NumberText(n);
    var m: Number := if n.Zero? then Zero(false) else n;
    ParseNumberIs(t, m, rest);
    assert (t + rest)[0] == t[0];
    ParseValueNumber(t + rest);
    assert Norm(Num(n)) == Num(m);
  }

  lemma ParseValueString(inside: Text, s: Text, rest: Text)
    requires ParseChars(inside) == Ok(s, rest)
    ensures ParseValue([QUOTE] + inside) == Ok(Str(s), rest)
  {
    assert ([QUOTE] + inside)[1..] == inside;
  }

  lemma ParsePrintedString(s: Text, rest: Text)
    ensures ParseValue(Print(Str(s)) + rest) == Ok(Str(s), rest)
  {
    ParseEscaped(s, rest);
    Bracketed(QUOTE, Escaped(s), QUOTE, rest);
    ParseValueString(Escaped(s) + [QUOTE] + rest, s, rest);
  }

  lemma Bracketed(open: Unit, mid: Text, close: Unit, rest: Text)
    ensures [open] + mid + [close] + rest == [open] + (mid + [close] + rest)
  {
  }

  lemma ParseValueArray(inside: Text, items: seq<Value>, rest: Text)
    requires inside != [] && inside[0] != CLOSE_BRACKET && ParseSlots(inside) == Ok(items, rest)
    ensures ParseValue([OPEN_BRACKET] + inside) == Ok(Arr(items), rest)
  {
    assert ([OPEN_BRACKET] + inside)[1..] == inside;
  }

  lemma ParseValueEmptyArray(rest: Text)
    ensures ParseValue([OPEN_BRACKET, CLOSE_BRACKET] + rest) == Ok(Arr([]), rest)
  {
    assert ([OPEN_BRACKET, CLOSE_BRACKET] + rest)[2..] == rest;
  }

  lemma ParsePrintedArray(items: seq<Value>, rest: Text)
    requires items != [] ==> ParseSlots(Slots(items) + [CLOSE_BRACKET] + rest) == Ok(NormAll(items), rest)
    ensures ParseValue(Print(Arr(items)) + rest) == Ok(Norm(Arr(items)), rest)
  {
    if items == [] || items == [Undefined] {
      assert Slots(items) == [];
      assert Print(Arr(items)) == [OPEN_BRACKET, CLOSE_BRACKET];
      ParseValueEmptyArray(rest);
    } else {
      SlotsStart(items);
      Bracketed(OPEN_BRACKET, Slots(items), CLOSE_BRACKET, rest);
      ParseValueArray(Slots(items) + [CLOSE_BRACKET] + rest, NormAll(items), rest);
    }
  }

  lemma ParseValueObject(inside: Text, m: map<Text, Value>, rest: Text)
    requires inside != [] && inside[0] != CLOSE_BRACE && ParseMembers(inside) == Ok(m, rest)
    ensures ParseValue([OPEN_BRACE] + inside) == Ok(Obj(m), rest)
  {
    assert ([OPEN_BRACE] + inside)[1..] == inside;
  }

  lemma ParsePrintedObject(v: Value, keys: seq<Text>, rest: Text)
    requires v.Obj? && keys == SortedKeys(v.members.Keys) && keys != []
    requires Members(v, keys) != [] && Members(v, keys)[0] == QUOTE
    requires ParseMembers(Members(v, keys) + [CLOSE_BRACE] + rest) == Ok(NormOn(v, keys), rest)
    ensures ParseValue(Print(v) + rest) == Ok(Norm(v), rest)
  {
    Bracketed(OPEN_BRACE, Members(v, keys), CLOSE_BRACE, rest);
    ParseValueObject(Members(v, keys) + [CLOSE_BRACE] + rest, NormOn(v, keys), rest);
    NormOnAll(v);
  }

  lemma NormOnAll(v: Value)
    requires v.Obj?
    ensures Norm(v) == Obj(NormOn(v, SortedKeys(v.members.Keys)))
  {
  }

  lemma ParsePrintedEmptyObject(rest: Text)
    ensures ParseValue(Print(Obj(map[])) + rest) == Ok(Norm(Obj(map[])), rest)
  {
    assert Print(Obj(map[])) == [OPEN_BRACE, CLOSE_BRACE];
    assert ([OPEN_BRACE, CLOSE_BRACE] + rest)[2..] == rest;
  }

  /** The parser undoes the printer, whatever text follows that cannot extend a number. */
  lemma {:induction false} ParsePrint(v: Value, rest: Text)
    requires Delimited(rest)
    ensures ParseValue(Print(v) + rest) == Ok(Norm(v), rest)
    decreases v, 1, 0
  {
    match v
    case Num(n) =>
      if n.Zero? || n.Decimal? {
        ParsePrintedNumber(n, rest);
      } else {
        ParsePrintedWord(v, rest);
      }
    case Str(s) => ParsePrintedString(s, rest);
    case Arr(items) =>
      if items != [] {
        ParsePrintedSlots(items, rest);
      }
      ParsePrintedArray(items, rest);
    case Obj(m) =>
      if m == map[] {
        ParsePrintedEmptyObject(rest);
      } else {
        SortedKeysNonEmpty(m.Keys);
        ParsePrintedMembers(v, SortedKeys(m.Keys), rest);
        ParsePrintedObject(v, SortedKeys(m.Keys), rest);
      }
    case _ => ParsePrintedWord(v, rest);
  }

  /** The normalised members at some of an object's keys. */
  ghost function NormOn(v: Value, keys: seq<Text>): map<Text, Value>
    requires v.Obj? && forall k | k in keys :: k in v.members
  {
    map k | k in keys :: Norm(v.members[k])
  }

  lemma SortedKeysNonEmpty(keys: set<Text>)
    requires keys != {}
    ensures SortedKeys(keys) != []
  {
  }

  lemma SlotsStart(items: seq<Value>)
    requires items != [] && items != [Undefined]
    ensures Slots(items) != [] && Slots(items)[0] != CLOSE_BRACKET
  {
    if !items[0].Undefined? {
      PrintStarts(items[0]);
    } else {
      assert |items| == 1 ==> items == [Undefined];
    }
  }

  /** One turn of ParseSlots. */
  lemma ParseSlotsStep(t: Text, item: Value, tail: Text, more: seq<Value>, rest: Text)
    requires t != [] && tail != []
    requires if t[0] == COMMA || t[0] == CLOSE_BRACKET then item == Undefined && tail == t else ParseValue(t) == Ok(item, tail)
    requires if more == [] then tail[0] == CLOSE_BRACKET && tail[1..] == rest
             else tail[0] == COMMA && ParseSlots(tail[1..]) == Ok(more, rest)
    ensures ParseSlots(t) == Ok([item] + more, rest)
  {
    assert more == [] ==> [item] + more == [item];
  }

  lemma SlotsText(items: seq<Value>, first: Text, tail: Text, rest: Text)
    requires items != [] && first == if items[0].Undefined? then [] else Print(items[0])
    requires tail == if |items| == 1 then [CLOSE_BRACKET] + rest else [COMMA] + (Slots(items[1..]) + [CLOSE_BRACKET] + rest)
    ensures Slots(items) + [CLOSE_BRACKET] + rest == first + tail
  {
    if |items| == 1 {
      RegroupLast(first, rest);
    } else {
      RegroupSlots(first, Slots(items[1..]), rest);
    }
  }

  lemma RegroupLast(first: Text, rest: Text)
    ensures first + [] + [CLOSE_BRACKET] + rest == first + ([CLOSE_BRACKET] + rest)
  {
  }

  lemma RegroupSlots(first: Text, more: Text, rest: Text)
    ensures first + ([COMMA] + more) + [CLOSE_BRACKET] + rest == first + ([COMMA] + (more + [CLOSE_BRACKET] + rest))
  {
  }

  lemma {:induction false} ParsePrintedSlots(items: seq<Value>, rest: Text)
    requires items != []
    ensures ParseSlots(Slots(items) + [CLOSE_BRACKET] + rest) == Ok(NormAll(items), rest)
    decreases items, 0, 0
  {
    var first := if items[0].Undefined? then [] else Print(items[0]);
    var tail := if |items| == 1 then [CLOSE_BRACKET] + rest else [COMMA] + (Slots(items[1..]) + [CLOSE_BRACKET] + rest);
    SlotsText(items, first, tail, rest);
    if items[0].Undefined? {
      assert first + tail == tail;
    } else {
      PrintStarts(items[0]);
      ParsePrint(items[0], tail);
    }
    if |items| > 1 {
      ParsePrintedSlots(items[1..], rest);
      assert tail[1..] == Slots(items[1..]) + [CLOSE_BRACKET] + rest;
    } else {
      assert tail[1..] == rest;
    }
    ParseSlotsStep(first + tail, Norm(items[0]), tail, NormAll(items[1..]), rest);
  }

  /** One turn of ParseMembers. */
  lemma ParseMembersStep(t: Text, key: Text, item: Value, afterKey: Text, tail: Text, more: map<Text, Value>, rest: Text)
    requires t != [] && t[0] == QUOTE && afterKey != [] && afterKey[0] == COLON && tail != []
    requires ParseChars(t[1..]) == Ok(key, afterKey) && ParseValue(afterKey[1..]) == Ok(item, tail)
    requires if tail[0] == CLOSE_BRACE then more == map[] && tail[1..] == rest
             else tail[0] == COMMA && ParseMembers(tail[1..]) == Ok(more, rest)
    ensures ParseMembers(t) == Ok(map[key := item] + more, rest)
  {
    assert map[key := item] + map[] == map[key := item];
  }

  lemma {:induction false} ParsePrintedMembers(v: Value, keys: seq<Text>, rest: Text)
    requires v.Obj? && keys != [] && forall k | k in keys :: k in v.members
    ensures Members(v, keys) != [] && Members(v, keys)[0] == QUOTE
    ensures ParseMembers(Members(v, keys) + [CLOSE_BRACE] + rest)
         == Ok(NormOn(v, keys), rest)
    decreases v, 0, |keys|
  {
    var key, item := keys[0], v.members[keys[0]];
    var tail := if |keys| == 1 then [CLOSE_BRACE] + rest else [COMMA] + (Members(v, keys[1..]) + [CLOSE_BRACE] + rest);
    ParsePrint(item, tail);
    if |keys| > 1 {
      ParsePrintedMembers(v, keys[1..], rest);
    }
    ParsePrintedMember(v, keys, tail, rest);
  }

  lemma ParsePrintedMember(v: Value, keys: seq<Text>, tail: Text, rest: Text)
    requires v.Obj? && keys != [] && forall k | k in keys :: k in v.members
    requires ParseValue(Print(v.members[keys[0]]) + tail) == Ok(Norm(v.members[keys[0]]), tail)
    requires tail == if |keys| == 1 then [CLOSE_BRACE] + rest else [COMMA] + (Members(v, keys[1..]) + [CLOSE_BRACE] + rest)
    requires |keys| > 1 ==>
      ParseMembers(Members(v, keys[1..]) + [CLOSE_BRACE] + rest) == Ok(NormOn(v, keys[1..]), rest)
    ensures Members(v, keys) != [] && Members(v, keys)[0] == QUOTE
    ensures ParseMembers(Members(v, keys) + [CLOSE_BRACE] + rest)
         == Ok(NormOn(v, keys), rest)
  {
    var key, item := keys[0], v.members[keys[0]];
    var t := Members(v, keys) + [CLOSE_BRACE] + rest;
    var afterKey := [COLON] + (Print(item) + tail);
    MembersText(v, keys, tail, rest);
    assert t[1..] == Escaped(key) + [QUOTE] + afterKey;
    ParseEscaped(key, afterKey);
    assert afterKey[1..] == Print(item) + tail;
    var more := NormOn(v, keys[1..]);
    assert tail[1..] == if |keys| == 1 then rest else Members(v, keys[1..]) + [CLOSE_BRACE] + rest;
    assert |keys| == 1 ==> more == map[];
    ParseMembersStep(t, key, Norm(item), afterKey, tail, more, rest);
    MoreMembers(v, keys);
  }

  lemma MembersText(v: Value, keys: seq<Text>, tail: Text, rest: Text)
    requires v.Obj? && keys != [] && forall k | k in keys :: k in v.members
    requires tail == if |keys| == 1 then [CLOSE_BRACE] + rest else [COMMA] + (Members(v, keys[1..]) + [CLOSE_BRACE] + rest)
    ensures Members(v, keys) != [] && Members(v, keys)[0] == QUOTE
    ensures Members(v, keys) + [CLOSE_BRACE] + rest
         == [QUOTE] + (Escaped(keys[0]) + [QUOTE] + ([COLON] + (Print(v.members[keys[0]]) + tail)))
  {
    var more := if |keys| == 1 then [] else [COMMA] + Members(v, keys[1..]);
    Regroup(Escaped(keys[0]), Print(v.members[keys[0]]), more, rest, tail);
  }

  lemma Regroup(key: Text, item: Text, more: Text, rest: Text, tail: Text)
    requires more + [CLOSE_BRACE] + rest == tail
    ensures [QUOTE] + key + [QUOTE] + [COLON] + item + more + [CLOSE_BRACE] + rest
         == [QUOTE] + (key + [QUOTE] + ([COLON] + (item + tail)))
  {
  }

  lemma MoreMembers(v: Value, keys: seq<Text>)
    requires v.Obj? && keys != [] && forall k | k in keys :: k in v.members
    ensures map[keys[0] := Norm(v.members[keys[0]])] + NormOn(v, keys[1..]) == NormOn(v, keys)
  {
    assert keys == [keys[0]] + keys[1..];
  }

  lemma {:induction false} PrintOfNorm(v: Value)
    ensures Print(Norm(v)) == Print(v)
    decreases v, 1
  {
    match v
    case Arr(items) =>
      if items != [Undefined] {
        SlotsOfNorm(items);
      }
    case Obj(m) =>
      forall k | k in m ensures Print(Norm(m[k])) == Print(m[k]) {
        PrintOfNorm(m[k]);
      }
      assert Norm(v).members.Keys == m.Keys;
      MembersOfNorm(v, SortedKeys(m.Keys));
    case _ =>
  }

  lemma {:induction false} SlotsOfNorm(items: seq<Value>)
    ensures Slots(NormAll(items)) == Slots(items)
    decreases items, 0
  {
    if items != [] {
      PrintOfNorm(items[0]);
      SlotsOfNorm(items[1..]);
      assert NormAll(items)[1..] == NormAll(items[1..]);
    }
  }

  lemma {:induction false} MembersOfNorm(v: Value, keys: seq<Text>)
    requires v.Obj? && forall k | k in keys :: k in v.members
    requires forall k | k in v.members :: Print(Norm(v.members[k])) == Print(v.members[k])
    ensures Members(Norm(v), keys) == Members(v, keys)
    decreases |keys|
  {
    if keys != [] {
      MembersOfNorm(v, keys[1..]);
    }
  }

  /** Two values print the same text exactly when they agree up to what printing drops. */
  lemma PrintEqualIff(v: Value, w: Value)
    ensures Print(v) == Print(w) <==> Norm(v) == Norm(w)
  {
    ParsePrint(v, []);
    ParsePrint(w, []);
    assert Print(v) + [] == Print(v) && Print(w) + [] == Print(w);
    PrintOfNorm(v);
    PrintOfNorm(w);
  }

  /** On JSON values the printer is injective and the parser is its inverse. */
  lemma JsonRoundTrip(v: Value, w: Value)
    requires v.IsJson() && w.IsJson()
    ensures ParseValue(Print(v)) == Ok(v, [])
    ensures Print(v) == Print(w) <==> v == w
  {
    ParsePrint(v, []);
    assert Print(v) + [] == Print(v);
    PrintEqualIff(v, w);
    NormOfJson(v);
    NormOfJson(w);
  }

  /** Outside JSON the printer does collide. */
  lemma PrintCollides()
    ensures Print(Arr([Undefined])) == Print(Arr([]))
    ensures Print(Num(NaN)) == Print(Null)
    ensures Print(Num(Zero(true))) == Print(Num(Zero(false)))
  {
    assert Slots([Undefined]) == [] == Slots([]);
  }
}
