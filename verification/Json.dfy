/** scripts/publish-catalog-bee.js: the canonical JSON printer behind catalog signatures. */
module CanonicalJson {
  import opened Texts

  const QUOTE: Unit := 34
  const PLUS: Unit := 43
  const DOT: Unit := 46
  const LOWER_E: Unit := 101
  const LOWER_F: Unit := 102
  const LOWER_N: Unit := 110
  const LOWER_T: Unit := 116
  const LOWER_U: Unit := 117
  const BACKSLASH: Unit := 92
  const OPEN_BRACKET: Unit := 91
  const CLOSE_BRACKET: Unit := 93
  const OPEN_BRACE: Unit := 123
  const CLOSE_BRACE: Unit := 125

  const NULL_TEXT: Text := [LOWER_N, 117, 108, 108]
  const TRUE_TEXT: Text := [LOWER_T, 114, 117, 101]
  const FALSE_TEXT: Text := [LOWER_F, 97, 108, 115, 101]
  const UNDEFINED_TEXT: Text := [LOWER_U, 110, 100, 101, 102, 105, 110, 101, 100]

  /** A JavaScript number. A finite non-zero one is its shortest decimal
      0.d1d2...dk * 10^point, with d1 and dk non-zero: the digits that Number::toString
      (ECMA-262, section 6.1.6.1.20) chooses before it lays them out. */
  datatype Numeral =
    | NaN
    | Infinite(neg: bool)
    | Zero(neg: bool)
    | Decimal(neg: bool, digits: Text, point: int)
  {
    predicate Valid() {
      Decimal? ==> digits != [] && AllDigits(digits) && digits[0] != DIGIT_0 && digits[|digits| - 1] != DIGIT_0
    }
  }

  type Number = n: Numeral | n.Valid() witness Zero(false)

  /** The values canonicalJson is called on. `Undefined` stands for undefined, functions and symbols. */
  datatype Value =
    | Undefined
    | Null
    | Bool(b: bool)
    | Num(n: Number)
    | Str(s: Text)
    | Arr(items: seq<Value>)
    | Obj(members: map<Text, Value>)
  {
    /** A value that JSON text can denote: no undefined, no NaN or infinity, no negative zero. */
    predicate IsJson() {
      match this
      case Undefined => false
      case Num(n) => n.Decimal? || n == Zero(false)
      case Arr(items) => forall i | 0 <= i < |items| :: items[i].IsJson()
      case Obj(m) => forall k | k in m :: m[k].IsJson()
      case _ => true
    }
  }

  // ---------------------------------------------------------------- numbers

  function Zeros(n: nat): (t: Text)
    ensures |t| == n && forall i | 0 <= i < n :: t[i] == DIGIT_0
  {
    seq(n, i => DIGIT_0)
  }

  /** A number laid out: integer part, fraction part, power of ten. */
  datatype Layout = Layout(whole: Text, fraction: Text, exponent: int)

  function LayOut(digits: Text, point: int): Layout
    requires digits != []
  {
    var k := |digits|;
    if k <= point <= 21 then Layout(digits + Zeros(point - k), [], 0)
    else if 0 < point <= 21 then Layout(digits[..point], digits[point..], 0)
    else if -6 < point <= 0 then Layout([DIGIT_0], Zeros(-point) + digits, 0)
    else Layout(digits[..1], digits[1..], point - 1)
  }

  function ExponentText(e: int): Text {
    if e == 0 then [] else [LOWER_E, if e < 0 then MINUS else PLUS] + NatText(if e < 0 then -e else e)
  }

  function LayoutText(l: Layout): Text {
    l.whole + (if l.fraction == [] then [] else [DOT] + l.fraction) + ExponentText(l.exponent)
  }

  /** JSON.stringify of a number. */
  function NumberText(n: Number): Text
  {
    match n
    case NaN => NULL_TEXT
    case Infinite(_) => NULL_TEXT
    case Zero(_) => [DIGIT_0]
    case Decimal(neg, digits, point) => (if neg then [MINUS] else []) + LayoutText(LayOut(digits, point))
  }

  // ---------------------------------------------------------------- strings

  predicate IsHigh(u: Unit) {
    0xD800 <= u < 0xDC00
  }

  predicate IsLow(u: Unit) {
    0xDC00 <= u < 0xE000
  }

  /** The top six bits tell the halves of a pair. */
  lemma SurrogatesAre(u: Unit)
    ensures IsHigh(u) <==> u / 1024 == 54
    ensures IsLow(u) <==> u / 1024 == 55
  {
  }

  function EscapeUnit(u: Unit): Text {
    if u == 8 then [BACKSLASH, 98]
    else if u == 9 then [BACKSLASH, 116]
    else if u == 10 then [BACKSLASH, 110]
    else if u == 12 then [BACKSLASH, 102]
    else if u == 13 then [BACKSLASH, 114]
    else if u == QUOTE || u == BACKSLASH then [BACKSLASH, u]
    else if u < 32 || IsHigh(u) || IsLow(u) then
      [BACKSLASH, LOWER_U, HexDigit(u / 4096), HexDigit(u / 256 % 16), HexDigit(u / 16 % 16), HexDigit(u % 16)]
    else [u]
  }

  /** The inside of JSON.stringify of a string: a surrogate pair passes, a lone surrogate is escaped. */
  function Escaped(s: Text): Text {
    if s == [] then []
    else if |s| >= 2 && IsHigh(s[0]) && IsLow(s[1]) then s[..2] + Escaped(s[2..])
    else EscapeUnit(s[0]) + Escaped(s[1..])
  }

  function Quoted(s: Text): Text {
    [QUOTE] + Escaped(s) + [QUOTE]
  }

  // ---------------------------------------------------------------- key order

  ghost predicate IsLeast(k: Text, keys: set<Text>) {
    k in keys && forall other | other in keys :: Leq(k, other)
  }

  lemma {:induction false} LeastExists(keys: set<Text>)
    requires keys != {}
    ensures exists k :: IsLeast(k, keys)
  {
    var k :| k in keys;
    var rest := keys - {k};
    LeqTotal(k, k);
    if rest == {} {
      assert keys == {k};
      assert IsLeast(k, keys);
    } else {
      LeastExists(rest);
      var m :| IsLeast(m, rest);
      LeqTotal(k, m);
      var least := if Leq(k, m) then k else m;
      forall other | other in keys ensures Leq(least, other) {
        if other != k && least == k {
          LeqTransitive(k, m, other);
        }
      }
      assert IsLeast(least, keys);
    }
  }

  /** Object.keys(obj).sort(). */
  ghost function SortedKeys(keys: set<Text>): (r: seq<Text>)
    ensures forall k :: k in r <==> k in keys
  {
    if keys == {} then []
    else
      LeastExists(keys);
      var k :| IsLeast(k, keys);
      [k] + SortedKeys(keys - {k})
  }

  ghost predicate Ascending(keys: seq<Text>) {
    forall i, j | 0 <= i < j < |keys| :: Leq(keys[i], keys[j]) && keys[i] != keys[j]
  }

  /** However Object.keys enumerates the keys, sorting them has this one outcome. */
  lemma {:induction false} SortedKeysUnique(sorted: seq<Text>, keys: set<Text>)
    requires Ascending(sorted)
    requires forall k :: k in sorted <==> k in keys
    ensures sorted == SortedKeys(keys)
  {
    if sorted == [] {
      assert keys == {};
    } else {
      AscendingHead(sorted, keys);
      SortedKeysUnique(sorted[1..], keys - {sorted[0]});
    }
  }

  lemma AscendingHead(sorted: seq<Text>, keys: set<Text>)
    requires Ascending(sorted) && sorted != []
    requires forall k :: k in sorted <==> k in keys
    ensures forall k :: k in sorted[1..] <==> k in keys - {sorted[0]}
    ensures SortedKeys(keys) == [sorted[0]] + SortedKeys(keys - {sorted[0]})
  {
    var head := sorted[0];
    assert sorted == [head] + sorted[1..];
    forall k | k in sorted ensures Leq(head, k) {
      LeqTotal(head, k);
      if k != head {
        var i :| 0 <= i < |sorted| && sorted[i] == k;
      }
    }
    assert head in keys;
    forall least | IsLeast(least, keys) ensures least == head {
      LeqTotal(least, head);
    }
  }

  // ---------------------------------------------------------------- the printer

  /** canonicalJson(v), as it appears when concatenated into a larger text. */
  ghost function Print(v: Value): Text
    decreases v, 1, 0
  {
    match v
    case Undefined => UNDEFINED_TEXT
    case Null => NULL_TEXT
    case Bool(b) => if b then TRUE_TEXT else FALSE_TEXT
    case Num(n) => NumberText(n)
    case Str(s) => Quoted(s)
    case Arr(items) => [OPEN_BRACKET] + Slots(items) + [CLOSE_BRACKET]
    case Obj(m) => [OPEN_BRACE] + Members(v, SortedKeys(m.Keys)) + [CLOSE_BRACE]
  }

  /** items.map(canonicalJson).join(','): join writes nothing for undefined. */
  ghost function Slots(items: seq<Value>): Text
    decreases items, 0, 0
  {
    if items == [] then []
    else
      (if items[0].Undefined? then [] else Print(items[0])) +
      (if |items| == 1 then [] else [COMMA] + Slots(items[1..]))
  }

  ghost function Members(v: Value, keys: seq<Text>): Text
    requires v.Obj? && forall k | k in keys :: k in v.members
    decreases v, 0, |keys|
  {
    if keys == [] then []
    else
      Quoted(keys[0]) + [COLON] + Print(v.members[keys[0]]) +
      (if |keys| == 1 then [] else [COMMA] + Members(v, keys[1..]))
  }

  /** What the text keeps of a value: NaN and the infinities print as null, -0 as 0, [undefined] as []. */
  ghost function Norm(v: Value): Value
    decreases v, 1
  {
    match v
    case Num(NaN) => Null
    case Num(Infinite(_)) => Null
    case Num(Zero(_)) => Num(Zero(false))
    case Arr(items) => if items == [Undefined] then Arr([]) else Arr(NormAll(items))
    case Obj(m) => Obj(map k | k in m :: Norm(m[k]))
    case _ => v
  }

  ghost function NormAll(items: seq<Value>): (r: seq<Value>)
    ensures |r| == |items|
    decreases items, 0
  {
    if items == [] then [] else [Norm(items[0])] + NormAll(items[1..])
  }

  lemma ScalarsAreJson(b: bool, t: Text)
    ensures Null.IsJson() && Bool(b).IsJson() && Str(t).IsJson() && Num(Zero(false)).IsJson()
    ensures !Undefined.IsJson() && !Num(NaN).IsJson() && !Num(Zero(true)).IsJson() && !Num(Infinite(b)).IsJson()
  {
  }

  lemma {:induction false} NormOfJson(v: Value)
    requires v.IsJson()
    ensures Norm(v) == v
    decreases v, 1
  {
    match v
    case Arr(items) => NormAllOfJson(items);
    case Obj(m) =>
      forall k | k in m ensures Norm(m[k]) == m[k] {
        NormOfJson(m[k]);
      }
    case _ =>
  }

  lemma {:induction false} NormAllOfJson(items: seq<Value>)
    requires forall i | 0 <= i < |items| :: items[i].IsJson()
    ensures NormAll(items) == items
    decreases items, 0
  {
    if items != [] {
      NormOfJson(items[0]);
      NormAllOfJson(items[1..]);
    }
  }

  // ---------------------------------------------------------------- the order of the members

  /** Each key comes before the next ones: a beginning of them, or smaller at the first difference. */
  ghost predicate InOrder(keys: seq<Text>) {
    forall i, j | 0 <= i < j < |keys| :: ComesBefore(keys[i], keys[j])
  }

  lemma InOrderIsAscending(keys: seq<Text>)
    ensures InOrder(keys) <==> Ascending(keys)
  {
    forall i, j | 0 <= i < j < |keys|
      ensures ComesBefore(keys[i], keys[j]) <==> Leq(keys[i], keys[j]) && keys[i] != keys[j] {
      LeqIff(keys[i], keys[j]);
      BeforeOneWay(keys[i], keys[j]);
    }
  }

  lemma {:induction false} SortedKeysInOrder(keys: set<Text>)
    ensures InOrder(SortedKeys(keys))
  {
    if keys != {} {
      var sorted := SortedKeys(keys);
      var head, rest := sorted[0], sorted[1..];
      SortedKeysInOrder(keys - {head});
      forall j | 0 < j < |sorted| ensures ComesBefore(head, sorted[j]) {
        assert sorted[j] == rest[j - 1] && rest[j - 1] in keys - {head};
        LeqIff(head, sorted[j]);
      }
      forall i, j | 0 < i < j < |sorted| ensures ComesBefore(sorted[i], sorted[j]) {
        assert sorted[i] == rest[i - 1] && sorted[j] == rest[j - 1];
      }
    }
  }

  /** A member as it is printed. */
  ghost function Member(m: map<Text, Value>, k: Text): Text
    requires k in m
  {
    Quoted(k) + [COLON] + Print(m[k])
  }

  /** Texts with commas between them. */
  function Commas(parts: seq<Text>): Text {
    if parts == [] then [] else if |parts| == 1 then parts[0] else parts[0] + ([COMMA] + Commas(parts[1..]))
  }

  ghost function MemberTexts(m: map<Text, Value>, keys: seq<Text>): (r: seq<Text>)
    requires forall k | k in keys :: k in m
    ensures |r| == |keys| && forall i | 0 <= i < |keys| :: r[i] == Member(m, keys[i])
  {
    seq(|keys|, i requires 0 <= i < |keys| => Member(m, keys[i]))
  }

  lemma {:induction false} MembersAreJoined(m: map<Text, Value>, keys: seq<Text>)
    requires forall k | k in keys :: k in m
    ensures Members(Obj(m), keys) == Commas(MemberTexts(m, keys))
    decreases |keys|
  {
    if |keys| > 1 {
      MembersAreJoined(m, keys[1..]);
      assert MemberTexts(m, keys)[1..] == MemberTexts(m, keys[1..]);
    }
  }

  lemma {:induction false} PartStands(parts: seq<Text>, i: nat) returns (before: Text, after: Text)
    requires i < |parts|
    ensures Commas(parts) == before + parts[i] + after
    ensures i + 1 < |parts| ==> after == [COMMA] + Commas(parts[i + 1..])
    decreases |parts|
  {
    if i == 0 {
      before, after := [], if |parts| == 1 then [] else [COMMA] + Commas(parts[1..]);
    } else {
      var b, a := PartStands(parts[1..], i - 1);
      before, after := parts[0] + ([COMMA] + b), a;
      PartFurther(parts, i, b, a);
    }
  }

  lemma PartFurther(parts: seq<Text>, i: nat, b: Text, a: Text)
    requires 1 <= i < |parts| && Commas(parts[1..]) == b + parts[i] + a
    ensures Commas(parts) == parts[0] + ([COMMA] + b) + parts[i] + a
    ensures parts[1..][i..] == parts[i + 1..]
  {
    Behind(parts[0], [COMMA], b, parts[i], a);
  }

  lemma Behind(first: Text, comma: Text, b: Text, x: Text, a: Text)
    ensures first + (comma + (b + x + a)) == first + (comma + b) + x + a
  {
  }

  lemma PartsStand(parts: seq<Text>, i: nat, j: nat) returns (before: Text, between: Text, after: Text)
    requires i < j < |parts|
    ensures Commas(parts) == before + parts[i] + between + parts[j] + after
  {
    var b, a := PartStands(parts, i);
    var c, d := PartStands(parts[i + 1..], j - i - 1);
    before, between, after := b, [COMMA] + c, d;
    Between(b, parts[i], [COMMA], c, parts[j], d);
  }

  lemma Between(b: Text, x: Text, comma: Text, c: Text, y: Text, d: Text)
    ensures b + x + (comma + (c + y + d)) == b + x + (comma + c) + y + d
  {
  }

  lemma PositionsInOrder(keys: seq<Text>, k: Text, l: Text) returns (i: nat, j: nat)
    requires InOrder(keys) && k in keys && l in keys && ComesBefore(k, l)
    ensures i < j < |keys| && keys[i] == k && keys[j] == l
  {
    i :| 0 <= i < |keys| && keys[i] == k;
    j :| 0 <= j < |keys| && keys[j] == l;
    BeforeOneWay(k, l);
  }

  lemma ObjectIsJoined(m: map<Text, Value>)
    ensures Print(Obj(m)) == [OPEN_BRACE] + Commas(MemberTexts(m, SortedKeys(m.Keys))) + [CLOSE_BRACE]
  {
    MembersAreJoined(m, SortedKeys(m.Keys));
  }

  /** In the text of an object the member of the key that comes first stands first. */
  lemma MembersInOrder(m: map<Text, Value>, k: Text, l: Text) returns (before: Text, between: Text, after: Text)
    requires k in m && l in m && ComesBefore(k, l)
    ensures Print(Obj(m)) == before + Member(m, k) + between + Member(m, l) + after
  {
    var keys := SortedKeys(m.Keys);
    SortedKeysInOrder(m.Keys);
    var i, j := PositionsInOrder(keys, k, l);
    var b, c, d := PartsStand(MemberTexts(m, keys), i, j);
    ObjectIsJoined(m);
    before, between, after := [OPEN_BRACE] + b, c, d + [CLOSE_BRACE];
    Regrouped([OPEN_BRACE], b, Member(m, k), c, Member(m, l), d, [CLOSE_BRACE]);
  }

  lemma Regrouped(open: Text, b: Text, x: Text, c: Text, y: Text, d: Text, close: Text)
    ensures open + (b + x + c + y + d) + close == (open + b) + x + c + y + (d + close)
  {
  }

  /** And that is all there is to the text: the members of the keys in order, whoever lists them. */
  lemma ObjectText(m: map<Text, Value>, keys: seq<Text>)
    requires InOrder(keys) && forall k :: k in keys <==> k in m
    ensures Print(Obj(m)) == [OPEN_BRACE] + Members(Obj(m), keys) + [CLOSE_BRACE]
  {
    InOrderIsAscending(keys);
    SortedKeysUnique(keys, m.Keys);
  }

  // ---------------------------------------------------------------- known texts

  lemma KnownWords()
    ensures Print(Undefined) == Ascii("undefined") && Print(Null) == Ascii("null")
    ensures Print(Bool(true)) == Ascii("true") && Print(Bool(false)) == Ascii("false")
    ensures Print(Arr([])) == Ascii("[]")
  {
  }

  lemma KnownPunctuation()
    ensures [QUOTE, PLUS, DOT, LOWER_E, BACKSLASH] == Ascii("\"+.e\\")
    ensures [OPEN_BRACKET, CLOSE_BRACKET, OPEN_BRACE, CLOSE_BRACE] == Ascii("[]{}")
  {
  }

  /** How each unit is written inside a string. */
  lemma KnownEscapes(u: Unit)
    ensures u == 8 ==> EscapeUnit(u) == Ascii("\\b")
    ensures u == 9 ==> EscapeUnit(u) == Ascii("\\t")
    ensures u == 10 ==> EscapeUnit(u) == Ascii("\\n")
    ensures u == 12 ==> EscapeUnit(u) == Ascii("\\f")
    ensures u == 13 ==> EscapeUnit(u) == Ascii("\\r")
    ensures u == 34 ==> EscapeUnit(u) == Ascii("\\\"")
    ensures u == 92 ==> EscapeUnit(u) == Ascii("\\\\")
    ensures u == 31 ==> EscapeUnit(u) == Ascii("\\u001f")
    ensures u == 0xD83D ==> EscapeUnit(u) == Ascii("\\ud83d")
    ensures 32 <= u < 0xD800 && u != 34 && u != 92 ==> EscapeUnit(u) == [u]
    ensures 0xE000 <= u ==> EscapeUnit(u) == [u]
  {
  }

  lemma KnownPlain()
    ensures LayoutText(LayOut([49], 3)) == Ascii("100")
    ensures LayoutText(LayOut([49, 50, 53], 1)) == Ascii("1.25")
    ensures LayoutText(LayOut([53], 0)) == Ascii("0.5")
    ensures LayoutText(LayOut([55], -2)) == Ascii("0.007")
  {
  }

  lemma KnownExponents()
    ensures LayoutText(LayOut([49], 22)) == Ascii("1e+21")
    ensures LayoutText(LayOut([49, 53], -6)) == Ascii("1.5e-7")
  {
    assert NatText(21) == [50, 49] && NatText(7) == [55];
    assert [49, 53][..1] == [49] && [49][1..] == [] && [49][..1] == [49];
  }

  lemma KnownNumbers()
    ensures NumberText(Decimal(true, [49, 50, 53], 1)) == Ascii("-1.25")
    ensures NumberText(Zero(true)) == Ascii("0") && NumberText(NaN) == Ascii("null") && NumberText(Infinite(true)) == Ascii("null")
  {
    KnownPlain();
  }

  lemma SlotsCons(items: seq<Value>, rest: seq<Value>)
    requires |items| > 1 && !items[0].Undefined? && rest == items[1..]
    ensures Slots(items) == Print(items[0]) + ([COMMA] + Slots(rest))
  {
  }

  lemma ThreeSlots(a: Value, b: Value, c: Value)
    requires !a.Undefined? && !b.Undefined? && !c.Undefined?
    ensures Slots([a, b, c]) == Print(a) + ([COMMA] + (Print(b) + ([COMMA] + Slots([c]))))
  {
    SlotsCons([a, b, c], [b, c]);
    SlotsCons([b, c], [c]);
  }

  lemma LastSlot(c: Value)
    requires !c.Undefined?
    ensures Slots([c]) == Print(c)
  {
    assert Slots([c]) == Print(c) + [];
  }

  lemma Bracketed(x: Text, y: Text, z: Text)
    ensures [OPEN_BRACKET] + (x + ([COMMA] + (y + ([COMMA] + z)))) + [CLOSE_BRACKET]
         == Ascii("[") + x + Ascii(",") + y + Ascii(",") + z + Ascii("]")
  {
    ArrayMarks();
    var m, o, e := [COMMA], [OPEN_BRACKET], [CLOSE_BRACKET];
    assert o + (x + (m + (y + (m + z)))) + e == o + x + m + y + m + z + e;
  }

  /** Three items stand in brackets, in order, with commas between them. */
  lemma ThreeItems(a: Value, b: Value, c: Value)
    requires !a.Undefined? && !b.Undefined? && !c.Undefined?
    ensures Print(Arr([a, b, c])) == Ascii("[") + Print(a) + Ascii(",") + Print(b) + Ascii(",") + Print(c) + Ascii("]")
  {
    ThreeSlots(a, b, c);
    LastSlot(c);
    Bracketed(Print(a), Print(b), Print(c));
  }

  lemma ArrayMarks()
    ensures [OPEN_BRACKET] == Ascii("[") && [COMMA] == Ascii(",") && [CLOSE_BRACKET] == Ascii("]")
  {
  }

  lemma KnownEmptyObject()
    ensures Print(Obj(map[])) == Ascii("{}")
  {
    ObjectText(map[], []);
  }

  const LETTER_A: Text := [97]
  const LETTER_B: Text := [98]

  lemma QuotedLetters()
    ensures Quoted(LETTER_A) == Ascii("\"a\"") && Quoted(LETTER_B) == Ascii("\"b\"")
  {
    assert Escaped(LETTER_A) == LETTER_A && Escaped(LETTER_B) == LETTER_B;
  }

  /** An object with b and a prints a first: {"a":{},"b":...}. */
  lemma KnownObject(v: Value)
    ensures Print(Obj(map[LETTER_B := v, LETTER_A := Obj(map[])]))
         == Ascii("{\"a\":{},\"b\":") + Print(v) + Ascii("}")
  {
    var m := map[LETTER_B := v, LETTER_A := Obj(map[])];
    var keys := [LETTER_A, LETTER_B];
    assert SmallerAt(LETTER_A, LETTER_B, 0);
    assert keys[0] in keys && keys[1] in keys;
    ObjectText(m, keys);
    MembersAreJoined(m, keys);
    KnownEmptyObject();
    QuotedLetters();
    TwoParts(MemberTexts(m, keys));
    Assembled(Print(v));
  }

  lemma TwoParts(parts: seq<Text>)
    requires |parts| == 2
    ensures Commas(parts) == parts[0] + ([COMMA] + parts[1])
  {
    assert parts[1..] == [parts[1]];
  }

  lemma Assembled(v: Text)
    ensures [OPEN_BRACE] + ((Ascii("\"a\"") + [COLON] + Ascii("{}")) + ([COMMA] + (Ascii("\"b\"") + [COLON] + v))) + [CLOSE_BRACE]
         == Ascii("{\"a\":{},\"b\":") + v + Ascii("}")
  {
    assert Ascii("\"a\"") + [COLON] + Ascii("{}") == [34, 97, 34, 58, 123, 125];
    assert Ascii("\"b\"") + [COLON] == [34, 98, 34, 58];
    assert Ascii("{\"a\":{},\"b\":") == [123, 34, 97, 34, 58, 123, 125, 44, 34, 98, 34, 58];
  }
}
