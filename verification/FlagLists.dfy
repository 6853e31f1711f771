/** The comma-separated flags --bootstrap and --api-keys of scripts/publish-app.js, printed and parsed. */
module FlagLists {
  import opened Wrappers
  import opened Texts

  const EQUALS: Unit := 61
  const SLASH: Unit := 47

  datatype Result<+T> = Ok(value: T) | Error

  // ---------------------------------------------------------------- splitting and trimming

  function SplitCommas(t: Text): (parts: seq<Text>)
    ensures parts != [] && forall p | p in parts :: COMMA !in p
    decreases |t|
  {
    var i := IndexOf(t, COMMA);
    if i == |t| then assert t[..i] == t; [t] else [t[..i]] + SplitCommas(t[i + 1..])
  }

  function JoinCommas(parts: seq<Text>): Text
    requires parts != []
  {
    if |parts| == 1 then parts[0] else parts[0] + [COMMA] + JoinCommas(parts[1..])
  }

  lemma {:induction false} SplitJoined(parts: seq<Text>)
    requires parts != [] && forall p | p in parts :: COMMA !in p
    ensures SplitCommas(JoinCommas(parts)) == parts
  {
    var t := JoinCommas(parts);
    assert COMMA !in parts[0];
    if |parts| == 1 {
      assert t == parts[0] + [];
      CutAt(t, parts[0], [], COMMA);
      assert parts == [parts[0]];
    } else {
      var rest := [COMMA] + JoinCommas(parts[1..]);
      assert t == parts[0] + rest;
      CutAt(t, parts[0], rest, COMMA);
      assert t[|parts[0]| + 1..] == t[|parts[0]|..][1..] == JoinCommas(parts[1..]);
      SplitJoined(parts[1..]);
    }
  }

  /** The white space of String.prototype.trim. */
  predicate IsSpace(u: Unit) {
    9 <= u <= 13 || u == 32 || u == 160 || u == 0x1680 || 0x2000 <= u <= 0x200A || u == 0x2028 || u == 0x2029 ||
    u == 0x202F || u == 0x205F || u == 0x3000 || u == 0xFEFF
  }

  predicate StartsTrimmed(t: Text) {
    t != [] && !IsSpace(t[0])
  }

  predicate EndsTrimmed(t: Text) {
    t != [] && !IsSpace(t[|t| - 1])
  }

  function TrimStart(t: Text): (r: Text)
    ensures r != [] ==> StartsTrimmed(r)
    ensures forall u | u in r :: u in t
  {
    if t == [] || !IsSpace(t[0]) then t else TrimStart(t[1..])
  }

  function TrimEnd(t: Text): (r: Text)
    ensures r <= t && (r != [] ==> EndsTrimmed(r))
  {
    if t == [] || !IsSpace(t[|t| - 1]) then t else TrimEnd(t[..|t| - 1])
  }

  function Trim(t: Text): (r: Text)
    ensures r != [] ==> StartsTrimmed(r) && EndsTrimmed(r)
    ensures forall u | u in r :: u in t
  {
    TrimEnd(TrimStart(t))
  }

  /** split(',').map(trim).filter(Boolean) */
  function Kept(parts: seq<Text>): (r: seq<Text>)
    ensures (forall p | p in parts :: COMMA !in p) ==> forall p | p in r :: COMMA !in p
    ensures forall p | p in r :: StartsTrimmed(p) && EndsTrimmed(p)
  {
    if parts == [] then []
    else
      var p := Trim(parts[0]);
      (if p == [] then [] else [p]) + Kept(parts[1..])
  }

  lemma {:induction false} KeptAll(parts: seq<Text>)
    requires forall p | p in parts :: StartsTrimmed(p) && EndsTrimmed(p)
    ensures Kept(parts) == parts
  {
    if parts != [] {
      assert StartsTrimmed(parts[0]);
      KeptAll(parts[1..]);
      assert parts == [parts[0]] + parts[1..];
    }
  }

  function Items(input: Text): (r: seq<Text>)
    ensures forall p | p in r :: COMMA !in p && StartsTrimmed(p) && EndsTrimmed(p)
  {
    Kept(SplitCommas(input))
  }

  lemma ItemsOfJoined(parts: seq<Text>)
    requires parts != [] && forall p | p in parts :: COMMA !in p && StartsTrimmed(p) && EndsTrimmed(p)
    ensures Items(JoinCommas(parts)) == parts && JoinCommas(parts) != []
  {
    SplitJoined(parts);
    KeptAll(parts);
    assert StartsTrimmed(parts[0]);
  }

  // ---------------------------------------------------------------- bootstrap nodes

  datatype Node = Node(host: Text, port: nat)

  /** `${node.host}:${node.port}` */
  function NodeText(n: Node): Text {
    n.host + [COLON] + NatText(n.port)
  }

  function NodeTexts(nodes: seq<Node>): (r: seq<Text>)
    ensures |r| == |nodes| && forall i | 0 <= i < |nodes| :: r[i] == NodeText(nodes[i])
  {
    seq(|nodes|, i requires 0 <= i < |nodes| => NodeText(nodes[i]))
  }

  function PrintNodes(nodes: seq<Node>): Text
    requires nodes != []
  {
    JoinCommas(NodeTexts(nodes))
  }

  /** One past the last colon; 0 when there is none. */
  function AfterLastColon(t: Text): (i: nat)
    ensures i <= |t| && (i > 0 ==> t[i - 1] == COLON) && COLON !in t[i..]
  {
    if t == [] then 0
    else if t[|t| - 1] == COLON then |t|
    else
      var i := AfterLastColon(t[..|t| - 1]);
      assert t[i..] == t[..|t| - 1][i..] + [t[|t| - 1]];
      i
  }

  lemma LastColonIs(t: Text, i: nat)
    requires 0 < i <= |t| && t[i - 1] == COLON && COLON !in t[i..]
    ensures AfterLastColon(t) == i
  {
  }

  const MAX_PORT := 65535

  /** `number` is Number(text) where that is an integer. It reads the decimal numerals of ports; of its other readings,
      and of numerals too large to be exact, nothing is used. */
  ghost predicate ReadsPorts(number: Text -> Option<int>) {
    forall n: nat | n <= MAX_PORT :: number(NatText(n)) == Some(n)
  }

  function ParseNode(t: Text, number: Text -> Option<int>): Result<Node> {
    var i := AfterLastColon(t);
    if i <= 1 || i == |t| then Error
    else
      var port := number(t[i..]);
      if port.None? || port.value <= 0 || port.value > MAX_PORT then Error else Ok(Node(t[..i - 1], port.value))
  }

  function ParseAll(items: seq<Text>, number: Text -> Option<int>): Result<seq<Node>> {
    if items == [] then Ok([])
    else
      var first, rest := ParseNode(items[0], number), ParseAll(items[1..], number);
      if first.Ok? && rest.Ok? then Ok([first.value] + rest.value) else Error
  }

  /** parseBootstrapNodes; Ok([]) stands for its null. */
  function ParseNodes(input: Text, number: Text -> Option<int>): Result<seq<Node>> {
    if input == [] then Ok([]) else ParseAll(Items(input), number)
  }

  /** What --bootstrap can carry: colons are welcome in a host, commas and leading blanks are not. */
  predicate Printable(n: Node) {
    StartsTrimmed(n.host) && COMMA !in n.host && 1 <= n.port <= MAX_PORT
  }

  lemma NodeTextShape(n: Node)
    requires Printable(n)
    ensures COMMA !in NodeText(n) && StartsTrimmed(NodeText(n)) && EndsTrimmed(NodeText(n))
  {
    var t, digits := NodeText(n), NatText(n.port);
    assert t[|t| - 1] == digits[|digits| - 1];
    assert IsDigit(digits[|digits| - 1]);
    assert t[0] == n.host[0];
  }

  lemma ParsePrintedNode(n: Node, number: Text -> Option<int>)
    requires Printable(n) && ReadsPorts(number)
    ensures ParseNode(NodeText(n), number) == Ok(n)
  {
    var t, i := NodeText(n), |n.host| + 1;
    assert t[i..] == NatText(n.port) && t[..i - 1] == n.host;
    LastColonIs(t, i);
  }

  lemma {:induction false} ParseAllPrinted(nodes: seq<Node>, number: Text -> Option<int>)
    requires ReadsPorts(number) && forall i | 0 <= i < |nodes| :: Printable(nodes[i])
    ensures ParseAll(NodeTexts(nodes), number) == Ok(nodes)
  {
    if nodes != [] {
      ParsePrintedNode(nodes[0], number);
      ParseAllPrinted(nodes[1..], number);
      assert NodeTexts(nodes)[1..] == NodeTexts(nodes[1..]);
      assert nodes == [nodes[0]] + nodes[1..];
    }
  }

  lemma {:induction false} ParseAllPrintable(items: seq<Text>, number: Text -> Option<int>)
    requires forall p | p in items :: COMMA !in p && StartsTrimmed(p)
    ensures var r := ParseAll(items, number); r.Ok? ==> forall i | 0 <= i < |r.value| :: Printable(r.value[i])
  {
    if items != [] {
      var p := items[0];
      assert COMMA !in p && StartsTrimmed(p);
      ParseAllPrintable(items[1..], number);
    }
  }

  ghost predicate AllPrintable(nodes: seq<Node>) {
    forall i | 0 <= i < |nodes| :: Printable(nodes[i])
  }

  lemma PrintableRoundTrip(nodes: seq<Node>, number: Text -> Option<int>)
    requires nodes != [] && ReadsPorts(number) && AllPrintable(nodes)
    ensures ParseNodes(PrintNodes(nodes), number) == Ok(nodes)
  {
    var texts := NodeTexts(nodes);
    forall p | p in texts ensures COMMA !in p && StartsTrimmed(p) && EndsTrimmed(p) {
      var i :| 0 <= i < |texts| && texts[i] == p;
      NodeTextShape(nodes[i]);
    }
    ItemsOfJoined(texts);
    ParseAllPrinted(nodes, number);
  }

  lemma ParsedPrintable(input: Text, nodes: seq<Node>, number: Text -> Option<int>)
    requires ParseNodes(input, number) == Ok(nodes)
    ensures AllPrintable(nodes)
  {
    if input != [] {
      ParseAllPrintable(Items(input), number);
      assert ParseAll(Items(input), number).value == nodes;
    }
  }

  /** Printing then parsing gives a non-empty list of nodes back exactly when every node is printable. */
  lemma BootstrapRoundTrip(nodes: seq<Node>, number: Text -> Option<int>)
    requires nodes != [] && ReadsPorts(number)
    ensures ParseNodes(PrintNodes(nodes), number) == Ok(nodes) <==> AllPrintable(nodes)
  {
    if AllPrintable(nodes) {
      PrintableRoundTrip(nodes, number);
    }
    if ParseNodes(PrintNodes(nodes), number) == Ok(nodes) {
      ParsedPrintable(PrintNodes(nodes), nodes, number);
    }
  }

  /** An item is a node exactly when it is a host, a colon and the text of a port without colons. */
  lemma NodeIff(t: Text, n: Node, number: Text -> Option<int>)
    ensures ParseNode(t, number) == Ok(n) <==>
            exists port: Text ::
              t == n.host + [COLON] + port && n.host != [] && port != [] && COLON !in port &&
              number(port) == Some(n.port) && 1 <= n.port <= 65535
  {
    if ParseNode(t, number) == Ok(n) {
      NodeRead(t, n, number);
    }
    if port: Text :| t == n.host + [COLON] + port && n.host != [] && port != [] && COLON !in port &&
                     number(port) == Some(n.port) && 1 <= n.port <= 65535 {
      NodeParsed(t, n, port, number);
    }
  }

  lemma NodeRead(t: Text, n: Node, number: Text -> Option<int>)
    requires ParseNode(t, number) == Ok(n)
    ensures exists port: Text ::
              t == n.host + [COLON] + port && n.host != [] && port != [] && COLON !in port &&
              number(port) == Some(n.port) && 1 <= n.port <= 65535
  {
    var i := AfterLastColon(t);
    assert t == t[..i - 1] + [t[i - 1]] + t[i..];
    assert t == n.host + [COLON] + t[i..];
  }

  lemma NodeParsed(t: Text, n: Node, port: Text, number: Text -> Option<int>)
    requires t == n.host + [COLON] + port && n.host != [] && port != [] && COLON !in port
    requires number(port) == Some(n.port) && 1 <= n.port <= 65535
    ensures ParseNode(t, number) == Ok(n)
  {
    assert t[|n.host| + 1..] == port && t[..|n.host|] == n.host;
    LastColonIs(t, |n.host| + 1);
  }

  lemma {:induction false} BadNodeFails(items: seq<Text>, i: nat, number: Text -> Option<int>)
    requires i < |items| && ParseNode(items[i], number).Error?
    ensures ParseAll(items, number).Error?
    decreases |items|
  {
    if i > 0 {
      BadNodeFails(items[1..], i - 1, number);
    }
  }

  lemma {:induction false} TrimStartDrops(a: Text, t: Text)
    requires (forall i | 0 <= i < |a| :: IsSpace(a[i])) && (t == [] || !IsSpace(t[0]))
    ensures TrimStart(a + t) == t
  {
    if a == [] {
      assert a + t == t;
    } else {
      TrimStartDrops(a[1..], t);
      assert (a + t)[1..] == a[1..] + t;
    }
  }

  lemma {:induction false} TrimEndDrops(t: Text, b: Text)
    requires (forall i | 0 <= i < |b| :: IsSpace(b[i])) && (t == [] || !IsSpace(t[|t| - 1]))
    ensures TrimEnd(t + b) == t
  {
    if b == [] {
      assert t + b == t;
    } else {
      TrimEndDrops(t, b[..|b| - 1]);
      assert (t + b)[..|t + b| - 1] == t + b[..|b| - 1];
    }
  }

  /** What trim() strips: the white space and line terminators of ECMAScript. */
  lemma SpacesAre(u: Unit)
    ensures IsSpace(u) <==> u in [9, 10, 11, 12, 13, 32, 160, 0x1680, 0x2000, 0x2001, 0x2002, 0x2003, 0x2004, 0x2005, 0x2006,
                                  0x2007, 0x2008, 0x2009, 0x200A, 0x2028, 0x2029, 0x202F, 0x205F, 0x3000, 0xFEFF]
  {
  }

  /** Blanks around an item are dropped, nothing else. */
  lemma TrimDrops(a: Text, t: Text, b: Text)
    requires (forall i | 0 <= i < |a| :: IsSpace(a[i])) && (forall i | 0 <= i < |b| :: IsSpace(b[i]))
    requires t != [] && !IsSpace(t[0]) && !IsSpace(t[|t| - 1])
    ensures Trim(a + t + b) == t
  {
    assert a + t + b == a + (t + b);
    TrimStartDrops(a, t + b);
    TrimEndDrops(t, b);
  }

  // ---------------------------------------------------------------- per-relay API keys

  /** url.replace(/\/+$/, '') */
  function StripSlashes(t: Text): (r: Text)
    ensures r <= t && (r == [] || r[|r| - 1] != SLASH)
  {
    if t != [] && t[|t| - 1] == SLASH then StripSlashes(t[..|t| - 1]) else t
  }

  lemma {:induction false} StripAdded(t: Text, n: nat)
    ensures StripSlashes(t + seq(n, i => SLASH)) == StripSlashes(t)
  {
    var slashes := seq(n, i => SLASH);
    if n == 0 {
      assert t + slashes == t;
    } else {
      StripAdded(t, n - 1);
      assert (t + slashes)[..|t + slashes| - 1] == t + seq(n - 1, i => SLASH);
    }
  }

  datatype Pair = Pair(url: Text, key: Text)

  /** One url=key item, cut at its first "=". */
  function ParsePair(t: Text): Result<Pair> {
    var i := IndexOf(t, EQUALS);
    if i == 0 || i >= |t| - 1 then Error else Ok(Pair(t[..i], t[i + 1..]))
  }

  function ParsePairs(items: seq<Text>): Result<seq<Pair>> {
    if items == [] then Ok([])
    else
      var first, rest := ParsePair(items[0]), ParsePairs(items[1..]);
      if first.Ok? && rest.Ok? then Ok([first.value] + rest.value) else Error
  }

  /** The loop that fills the map; a later pair for the same url wins. */
  function FillMap(items: seq<Text>, m: map<Text, Text>): Result<map<Text, Text>> {
    if items == [] then Ok(m)
    else
      var p := ParsePair(items[0]);
      if p.Error? then Error else FillMap(items[1..], m[StripSlashes(p.value.url) := p.value.key])
  }

  method ParseApiKeyMap(input: Text) returns (r: Result<map<Text, Text>>)
    ensures r == if input == [] then Ok(map[]) else FillMap(Items(input), map[])
  {
    if input == [] { return Ok(map[]); }
    var items := Items(input);
    var m: map<Text, Text> := map[];
    for i := 0 to |items|
      invariant FillMap(items, map[]) == FillMap(items[i..], m)
    {
      assert items[i..][1..] == items[i + 1..];
      var p := ParsePair(items[i]);
      if p.Error? { return Error; }
      m := m[StripSlashes(p.value.url) := p.value.key];
    }
    return Ok(m);
  }

  function ResolveApiKey(url: Text, keys: map<Text, Text>, shared: Option<Text>): Option<Text> {
    var normalized := StripSlashes(url);
    if normalized in keys then Some(keys[normalized]) else shared
  }

  /** A url that is not listed, however many slashes it ends in, gets the shared key. */
  lemma UnlistedUrl(url: Text, keys: map<Text, Text>, shared: Option<Text>)
    requires forall k | k in keys :: k != StripSlashes(url)
    ensures ResolveApiKey(url, keys, shared) == shared
  {
  }

  /** An item is a pair exactly when its first "=" has something before and after it. */
  lemma PairIff(t: Text, p: Pair)
    ensures ParsePair(t) == Ok(p) <==> p.url != [] && p.key != [] && EQUALS !in p.url && t == p.url + [EQUALS] + p.key
  {
    var i := IndexOf(t, EQUALS);
    if ParsePair(t) == Ok(p) {
      assert t == t[..i] + [t[i]] + t[i + 1..];
    }
    if p.url != [] && p.key != [] && EQUALS !in p.url && t == p.url + [EQUALS] + p.key {
      assert t == p.url + ([EQUALS] + p.key);
      CutAt(t, p.url, [EQUALS] + p.key, EQUALS);
      assert t[|p.url| + 1..] == p.key;
    }
  }

  /** One bad item spoils the list. */
  lemma {:induction false} BadItemFails(items: seq<Text>, i: nat)
    requires i < |items| && ParsePair(items[i]).Error?
    ensures ParsePairs(items).Error?
    decreases |items|
  {
    if i > 0 {
      BadItemFails(items[1..], i - 1);
    }
  }

  lemma KnownSeparators()
    ensures [EQUALS, SLASH, COMMA, COLON] == Ascii("=/,:")
  {
  }

  /** A pair as the flag takes it: '=' may occur in the key but not in the url, commas in neither. */
  predicate PairOk(p: Pair) {
    && StartsTrimmed(p.url) && EndsTrimmed(p.key) && COMMA !in p.url && COMMA !in p.key && EQUALS !in p.url
  }

  function PairText(p: Pair): Text {
    p.url + [EQUALS] + p.key
  }

  function PairTexts(pairs: seq<Pair>): (r: seq<Text>)
    ensures |r| == |pairs| && forall i | 0 <= i < |pairs| :: r[i] == PairText(pairs[i])
  {
    seq(|pairs|, i requires 0 <= i < |pairs| => PairText(pairs[i]))
  }

  /** What the pairs say, urls without their trailing slashes. */
  function Meant(pairs: seq<Pair>, m: map<Text, Text>): map<Text, Text> {
    if pairs == [] then m else Meant(pairs[1..], m[StripSlashes(pairs[0].url) := pairs[0].key])
  }

  lemma ParsePrintedPair(p: Pair)
    requires PairOk(p)
    ensures ParsePair(PairText(p)) == Ok(p)
    ensures COMMA !in PairText(p) && StartsTrimmed(PairText(p)) && EndsTrimmed(PairText(p))
  {
    var t, rest := PairText(p), [EQUALS] + p.key;
    assert t == p.url + rest;
    CutAt(t, p.url, rest, EQUALS);
    assert rest[1..] == p.key && t[|p.url| + 1..] == rest[1..];
    PairTextEnds(p);
  }

  lemma PairTextEnds(p: Pair)
    requires p.url != [] && p.key != []
    ensures PairText(p)[0] == p.url[0] && PairText(p)[|PairText(p)| - 1] == p.key[|p.key| - 1]
  {
  }

  lemma {:induction false} ParsePairsPrinted(pairs: seq<Pair>)
    requires forall i | 0 <= i < |pairs| :: PairOk(pairs[i])
    ensures ParsePairs(PairTexts(pairs)) == Ok(pairs)
  {
    if pairs != [] {
      ParsePrintedPair(pairs[0]);
      ParsePairsPrinted(pairs[1..]);
      assert PairTexts(pairs)[1..] == PairTexts(pairs[1..]);
      assert pairs == [pairs[0]] + pairs[1..];
    }
  }

  lemma {:induction false} ParsedPairsOk(items: seq<Text>)
    requires forall p | p in items :: COMMA !in p && StartsTrimmed(p) && EndsTrimmed(p)
    ensures var r := ParsePairs(items); r.Ok? ==> forall i | 0 <= i < |r.value| :: PairOk(r.value[i])
  {
    if items != [] {
      var p := items[0];
      assert COMMA !in p && StartsTrimmed(p) && EndsTrimmed(p);
      ParsedPairsOk(items[1..]);
    }
  }

  /** The map is what the parsed pairs say, and there is one exactly when every item parses. */
  lemma {:induction false} FillMapIs(items: seq<Text>, m: map<Text, Text>)
    ensures FillMap(items, m) == match ParsePairs(items) case Ok(pairs) => Ok(Meant(pairs, m)) case Error => Error
    decreases |items|
  {
    if items != [] {
      var p := ParsePair(items[0]);
      if p.Ok? {
        FillMapIs(items[1..], m[StripSlashes(p.value.url) := p.value.key]);
      }
    }
  }

  /** Printing then parsing gives a non-empty list of pairs back exactly when every pair is as the flag takes it,
      and then the map is what the pairs say ... */
  lemma ApiKeysRoundTrip(pairs: seq<Pair>)
    requires pairs != []
    ensures var items := Items(JoinCommas(PairTexts(pairs)));
            && (ParsePairs(items) == Ok(pairs) <==> forall i | 0 <= i < |pairs| :: PairOk(pairs[i]))
            && (ParsePairs(items) == Ok(pairs) ==> FillMap(items, map[]) == Ok(Meant(pairs, map[])))
  {
    var items := Items(JoinCommas(PairTexts(pairs)));
    FillMapIs(items, map[]);
    ParsedPairsOk(items);
    if forall i | 0 <= i < |pairs| :: PairOk(pairs[i]) {
      ItemsOfPairs(pairs);
      ParsePairsPrinted(pairs);
    }
  }

  lemma ItemsOfPairs(pairs: seq<Pair>)
    requires pairs != [] && forall i | 0 <= i < |pairs| :: PairOk(pairs[i])
    ensures Items(JoinCommas(PairTexts(pairs))) == PairTexts(pairs)
  {
    var texts := PairTexts(pairs);
    forall p | p in texts ensures COMMA !in p && StartsTrimmed(p) && EndsTrimmed(p) {
      var i :| 0 <= i < |texts| && texts[i] == p;
      ParsePrintedPair(pairs[i]);
    }
    ItemsOfJoined(texts);
  }

  /** A url with "=" in it is accepted and misread: its tail becomes part of the key. */
  lemma QueryMisread(before: Text, after: Text, key: Text)
    requires PairOk(Pair(before, key)) && COMMA !in after
    ensures var texts := PairTexts([Pair(before + [EQUALS] + after, key)]);
            ParsePairs(Items(JoinCommas(texts))) == Ok([Pair(before, after + [EQUALS] + key)])
  {
    var misread := Pair(before, after + [EQUALS] + key);
    SameText(before, after, key);
    assert PairOk(misread) by { assert EndsTrimmed(key); }
    OnePair(misread);
    assert PairTexts([misread]) == [PairText(misread)];
    assert PairTexts([Pair(before + [EQUALS] + after, key)]) == [PairText(misread)];
  }

  lemma SameText(before: Text, after: Text, key: Text)
    ensures PairText(Pair(before + [EQUALS] + after, key)) == PairText(Pair(before, after + [EQUALS] + key))
  {
  }

  lemma OnePair(p: Pair)
    requires PairOk(p)
    ensures ParsePairs(Items(JoinCommas(PairTexts([p])))) == Ok([p])
  {
    ApiKeysRoundTrip([p]);
  }

  lemma {:induction false} MeantKeeps(pairs: seq<Pair>, m: map<Text, Text>, url: Text)
    requires forall i | 0 <= i < |pairs| :: StripSlashes(pairs[i].url) != url
    ensures url in Meant(pairs, m) <==> url in m
    ensures url in m ==> Meant(pairs, m)[url] == m[url]
    decreases |pairs|
  {
    if pairs != [] {
      MeantKeeps(pairs[1..], m[StripSlashes(pairs[0].url) := pairs[0].key], url);
    }
  }

  lemma {:induction false} MeantLast(pairs: seq<Pair>, m: map<Text, Text>, i: nat)
    requires i < |pairs| && forall j | i < j < |pairs| :: StripSlashes(pairs[j].url) != StripSlashes(pairs[i].url)
    ensures StripSlashes(pairs[i].url) in Meant(pairs, m) && Meant(pairs, m)[StripSlashes(pairs[i].url)] == pairs[i].key
    decreases |pairs|
  {
    var m' := m[StripSlashes(pairs[0].url) := pairs[0].key];
    if i == 0 {
      MeantKeeps(pairs[1..], m', StripSlashes(pairs[0].url));
    } else {
      MeantLast(pairs[1..], m', i - 1);
    }
  }

  /** ... and the key of the last pair for a url is found for that url with any number of trailing slashes. */
  lemma KeyFound(pairs: seq<Pair>, i: nat, slashes: nat, shared: Option<Text>)
    requires i < |pairs| && forall j | i < j < |pairs| :: StripSlashes(pairs[j].url) != StripSlashes(pairs[i].url)
    ensures ResolveApiKey(pairs[i].url + seq(slashes, k => SLASH), Meant(pairs, map[]), shared) == Some(pairs[i].key)
  {
    StripAdded(pairs[i].url, slashes);
    MeantLast(pairs, map[], i);
  }
}
