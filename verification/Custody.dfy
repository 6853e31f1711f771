/** scripts/simulate-blind-atomic-custody.js: generating a network and picking custodians and witnesses. */
module Custody {
  import opened Wrappers
  import opened Texts
  import opened JsNumbers
  import opened Relays
  import Shuffling
  import Quorum

  type Rng = Shuffling.Rng

  type Stream = nat -> Shuffling.Word

  datatype Selection = Random | Score | Diverse

  datatype Scenario = Scenario(
    name: Text,
    custodyCount: nat,
    receiptQuorum: nat,
    readThreshold: nat,
    selection: Selection,
    fullMirror: bool,
    witnessCount: nat,
    witnessRounds: nat,
    witnessSelection: Selection)
  {
    /** scenario.witnessRounds || 1 */
    function Rounds(): nat {
      if witnessRounds == 0 then 1 else witnessRounds
    }

    function MaxWitnessProbes(): nat {
      witnessCount * (if witnessRounds != 0 then witnessRounds else if witnessCount != 0 then 1 else 0)
    }
  }

  /** Counts are positive and rates are probabilities, as toPositiveInt and toProbability make them;
      `rd` is how the engine rounds the results of arithmetic to doubles. */
  datatype Config = Config(
    iterations: nat,
    seed: Text,
    relayCount: nat,
    operatorCount: nat,
    regionCount: nat,
    maliciousOperatorRate: real,
    honestBugContinuesServingRate: real,
    maliciousContinuesServingRate: real,
    maliciousCensorRate: real,
    witnessDetectRate: real,
    rd: real -> real)
  {
    predicate Valid() {
      iterations >= 1 && relayCount >= 1 && operatorCount >= 1 && regionCount >= 1
    }
  }

  // ---------------------------------------------------------------- draws

  /** A draw as a number in [0, 1). */
  function Draw(stream: Stream, pos: nat): (x: real)
    ensures 0.0 <= x < 1.0
  {
    stream(pos) as real / TWO32 as real
  }

  method NextReal(rng: Rng) returns (x: real)
    requires rng.Valid()
    modifies rng
    ensures rng.Valid() && x == Draw(rng.stream, old(rng.pos)) && rng.pos == old(rng.pos) + 1
  {
    var u := rng.Next();
    x := u as real / TWO32 as real;
  }

  function Clamp(n: real, min: real, max: real): real {
    var low := if n < max then n else max;
    if low > min then low else min
  }

  // ---------------------------------------------------------------- the network

  /** A value drawn from a stream, and the position after it. */
  datatype Drawn<+T> = Drawn(value: T, pos: nat)

  function OperatorDrawn(relayIndex: nat, stream: Stream, pos: nat, operatorCount: nat): (d: Drawn<nat>)
    requires operatorCount >= 1
    ensures relayIndex < operatorCount ==> d.value == relayIndex
    ensures d.value < operatorCount || d.value < 3
  {
    if relayIndex < operatorCount then Drawn(relayIndex, pos)
    else
      var max := if Draw(stream, pos) >= 0.48 then operatorCount else if operatorCount / 4 > 3 then operatorCount / 4 else 3;
      Drawn(Shuffling.DrawBelow(stream(pos + 1), max), pos + 2)
  }

  method WeightedOperatorIndex(relayIndex: nat, rng: Rng, operatorCount: nat) returns (index: nat)
    requires rng.Valid() && operatorCount >= 1
    modifies rng
    ensures rng.Valid() && Drawn(index, rng.pos) == OperatorDrawn(relayIndex, rng.stream, old(rng.pos), operatorCount)
  {
    if relayIndex < operatorCount { return relayIndex; }
    var x := NextReal(rng);
    if x < 0.48 {
      index := rng.Int(if operatorCount / 4 > 3 then operatorCount / 4 else 3);
    } else {
      index := rng.Int(operatorCount);
    }
  }

  /** The draws behind one relay: operator, region offset, reliability, latency. */
  datatype Draft = Draft(operator: nat, offset: nat, x: real, y: real)

  function DraftDrawn(i: nat, stream: Stream, pos: nat, config: Config): Drawn<Draft>
    requires config.Valid()
  {
    var operator := OperatorDrawn(i, stream, pos, config.operatorCount);
    var p := operator.pos;
    Drawn(Draft(operator.value, Shuffling.DrawBelow(stream(p), config.regionCount), Draw(stream, p + 1), Draw(stream, p + 2)), p + 3)
  }

  function DraftsDrawn(n: nat, stream: Stream, pos: nat, config: Config): Drawn<seq<Draft>>
    requires config.Valid()
  {
    if n == 0 then Drawn([], pos)
    else
      var front := DraftsDrawn(n - 1, stream, pos, config);
      var last := DraftDrawn(n - 1, stream, front.pos, config);
      Drawn(front.value + [last.value], last.pos)
  }

  function Reliability(rd: real -> real, operator: nat, x: real): real {
    var bonus := if operator % 3 == 0 then rd(0.03) else 0.0;
    Clamp(rd(rd(rd(0.82) + rd(x * rd(0.17))) + bonus), rd(0.75), rd(0.995))
  }

  function Latency(rd: real -> real, operator: nat, y: real): int {
    (rd(rd(25.0 + rd(y * 275.0)) + (operator % 4 * 15) as real) + 0.5).Floor
  }

  function ScoreOf(rd: real -> real, reliability: real, latencyMs: int): real {
    Clamp(rd(rd(reliability * rd(0.82)) + rd(rd((300 - latencyMs) as real / 300.0) * rd(0.18))), 0.0, 1.0)
  }

  function RelayOf(i: nat, d: Draft, config: Config, malicious: set<int>): Relay
    requires config.Valid()
  {
    var reliability := Reliability(config.rd, d.operator, d.x);
    var latencyMs := Latency(config.rd, d.operator, d.y);
    Relay(HexFromInt(i, d.operator), d.operator, (i + d.operator + d.offset) % config.regionCount, reliability, latencyMs,
          ScoreOf(config.rd, reliability, latencyMs), d.operator in malicious)
  }

  /** What every generated relay is like: its key tells its index and operator, malice is the operator's,
      the first relays are run by different operators, and its figures stay in their ranges. */
  ghost predicate WellMade(r: Relay, i: nat, config: Config, malicious: set<int>) {
    && r.operator >= 0 && r.pubkey == HexFromInt(i, r.operator)
    && (r.malicious <==> r.operator in malicious)
    && (i < config.operatorCount ==> r.operator == i)
    && (r.operator < config.operatorCount || r.operator < 3)
    && 0 <= r.region < config.regionCount
    && 25 <= r.latencyMs <= 345
    && config.rd(0.82) <= r.reliability <= config.rd(0.995)
    && 0.0 <= r.score <= 1.0
  }

  lemma RelayWellMade(i: nat, d: Draft, config: Config, malicious: set<int>)
    requires config.Valid() && DraftOk(d, i, config) && InRange(config.rd)
    ensures WellMade(RelayOf(i, d, config, malicious), i, config, malicious)
  {
    assert config.rd(0.82) <= Reliability(config.rd, d.operator, d.x) <= config.rd(0.995);
    assert 25 <= Latency(config.rd, d.operator, d.y) <= 345;
  }

  predicate DraftOk(d: Draft, i: nat, config: Config) {
    && 0.0 <= d.x < 1.0 && 0.0 <= d.y < 1.0
    && (i < config.operatorCount ==> d.operator == i)
    && (d.operator < config.operatorCount || d.operator < 3)
  }

  ghost predicate AllDraftsOk(drafts: seq<Draft>, config: Config) {
    forall i | 0 <= i < |drafts| :: DraftOk(drafts[i], i, config)
  }

  lemma {:induction false} DraftsOk(n: nat, stream: Stream, pos: nat, config: Config)
    requires config.Valid()
    ensures |DraftsDrawn(n, stream, pos, config).value| == n && AllDraftsOk(DraftsDrawn(n, stream, pos, config).value, config)
  {
    if n > 0 {
      DraftsOk(n - 1, stream, pos, config);
    }
  }

  /** Whatever is drawn, reliability and latency stay in their ranges. */
  ghost predicate InRange(rd: real -> real) {
    && (forall operator: nat, x: real | 0.0 <= x :: rd(0.82) <= Reliability(rd, operator, x) <= rd(0.995))
    && (forall operator: nat, y: real | 0.0 <= y < 1.0 :: 25 <= Latency(rd, operator, y) <= 345)
  }

  lemma RoundingInRange(rd: real -> real)
    requires IsRounding(rd)
    ensures InRange(rd)
  {
    forall operator: nat, x: real | 0.0 <= x ensures rd(0.82) <= Reliability(rd, operator, x) <= rd(0.995) {
      ReliabilityRange(rd, operator, x);
    }
    forall operator: nat, y: real | 0.0 <= y < 1.0 ensures 25 <= Latency(rd, operator, y) <= 345 {
      LatencyRange(rd, operator, y);
    }
  }

  lemma SumAbove(rd: real -> real, low: real, extra: real)
    requires IsRounding(rd) && rd(low) == low && extra >= 0.0
    ensures rd(low + extra) >= low
  {
  }

  lemma RoundedNonNegative(rd: real -> real, a: real)
    requires IsRounding(rd) && a >= 0.0
    ensures rd(a) >= 0.0
  {
    assert rd(0.0) == 0.0;
  }

  lemma ReliabilitySum(rd: real -> real, term: real, bonus: real)
    requires IsRounding(rd) && term >= 0.0 && bonus >= 0.0
    ensures rd(rd(rd(0.82) + term) + bonus) >= rd(0.82)
  {
    var sum := rd(rd(0.82) + term);
    assert rd(rd(0.82)) == rd(0.82) && rd(sum) == sum;
    SumAbove(rd, rd(0.82), term);
    SumAbove(rd, sum, bonus);
  }

  lemma ReliabilityRange(rd: real -> real, operator: nat, x: real)
    requires IsRounding(rd) && 0.0 <= x
    ensures rd(0.82) <= Reliability(rd, operator, x) <= rd(0.995)
  {
    RoundedNonNegative(rd, 0.17);
    RoundedNonNegative(rd, 0.03);
    ProductNonNegative(x, rd(0.17));
    RoundedNonNegative(rd, x * rd(0.17));
    ReliabilitySum(rd, rd(x * rd(0.17)), if operator % 3 == 0 then rd(0.03) else 0.0);
    BoundsOrdered(rd);
  }

  lemma BoundsOrdered(rd: real -> real)
    requires IsRounding(rd)
    ensures rd(0.75) <= rd(0.82) <= rd(0.995)
  {
  }

  lemma ProductNonNegative(a: real, b: real)
    requires 0.0 <= a && 0.0 <= b
    ensures 0.0 <= a * b
  {
  }

  lemma LatencyRange(rd: real -> real, operator: nat, y: real)
    requires IsRounding(rd) && 0.0 <= y < 1.0
    ensures 25 <= Latency(rd, operator, y) <= 345
  {
    var extra := (operator % 4 * 15) as real;
    assert 0.0 <= y * 275.0 <= 275.0;
    assert 0.0 == rd(0.0) <= rd(y * 275.0) <= rd(275.0) == 275.0;
    var sum := 25.0 + rd(y * 275.0);
    assert 25.0 == rd(25.0) <= rd(sum) <= rd(300.0) == 300.0;
    assert 25.0 == rd(25.0) <= rd(rd(sum) + extra) <= rd(345.0) == 345.0;
  }

  method MakeRelay(i: nat, rng: Rng, config: Config, malicious: set<int>) returns (relay: Relay, ghost draft: Draft)
    requires rng.Valid() && config.Valid()
    modifies rng
    ensures rng.Valid() && Drawn(draft, rng.pos) == DraftDrawn(i, rng.stream, old(rng.pos), config)
    ensures relay == RelayOf(i, draft, config, malicious)
  {
    var d := DrawDraft(i, rng, config);
    relay := RelayOf(i, d, config, malicious);
    draft := d;
  }

  method DrawDraft(i: nat, rng: Rng, config: Config) returns (d: Draft)
    requires rng.Valid() && config.Valid()
    modifies rng
    ensures rng.Valid() && Drawn(d, rng.pos) == DraftDrawn(i, rng.stream, old(rng.pos), config)
  {
    var operator := WeightedOperatorIndex(i, rng, config.operatorCount);
    var offset := rng.Int(config.regionCount);
    var x := NextReal(rng);
    var y := NextReal(rng);
    d := Draft(operator, offset, x, y);
  }

  /** The operators among the first n that turn out malicious: one draw each. */
  function MaliciousDrawn(n: nat, stream: Stream, pos: nat, rate: real): set<int> {
    if n == 0 then {}
    else MaliciousDrawn(n - 1, stream, pos, rate) + if Draw(stream, pos + n - 1) < rate then {n - 1} else {}
  }

  method PickMalicious(rng: Rng, count: nat, rate: real) returns (malicious: set<int>)
    requires rng.Valid()
    modifies rng
    ensures rng.Valid() && rng.pos == old(rng.pos) + count
    ensures malicious == MaliciousDrawn(count, rng.stream, old(rng.pos), rate)
  {
    malicious := {};
    for i := 0 to count
      invariant rng.Valid() && rng.pos == old(rng.pos) + i
      invariant malicious == MaliciousDrawn(i, rng.stream, old(rng.pos), rate)
    {
      var x := NextReal(rng);
      if x < rate { malicious := malicious + {i}; }
    }
  }

  ghost predicate AreRelays(network: seq<Relay>, drafts: seq<Draft>, config: Config, malicious: set<int>)
    requires config.Valid()
  {
    |network| == |drafts| && forall i | 0 <= i < |network| :: network[i] == RelayOf(i, drafts[i], config, malicious)
  }

  lemma AreRelaysSnoc(network: seq<Relay>, r: Relay, drafts: seq<Draft>, d: Draft, config: Config, malicious: set<int>)
    requires config.Valid() && AreRelays(network, drafts, config, malicious) && r == RelayOf(|network|, d, config, malicious)
    ensures AreRelays(network + [r], drafts + [d], config, malicious)
  {
  }

  method MakeRelays(rng: Rng, config: Config, malicious: set<int>) returns (network: seq<Relay>, ghost drafts: seq<Draft>)
    requires rng.Valid() && config.Valid()
    modifies rng
    ensures rng.Valid() && Drawn(drafts, rng.pos) == DraftsDrawn(config.relayCount, rng.stream, old(rng.pos), config)
    ensures AreRelays(network, drafts, config, malicious)
  {
    network, drafts := [], [];
    for i := 0 to config.relayCount
      invariant rng.Valid() && Drawn(drafts, rng.pos) == DraftsDrawn(i, rng.stream, old(rng.pos), config)
      invariant AreRelays(network, drafts, config, malicious) && |network| == i
    {
      var relay;
      ghost var draft;
      relay, draft := MakeRelay(i, rng, config, malicious);
      AreRelaysSnoc(network, relay, drafts, draft, config, malicious);
      network := network + [relay];
      drafts := drafts + [draft];
    }
  }

  /** What the stream gives between two positions: first who is malicious, then the draws behind the relays. */
  ghost predicate IsNetwork(network: seq<Relay>, malicious: set<int>, drafts: seq<Draft>, stream: Stream, from: nat, to: nat, config: Config)
    requires config.Valid()
  {
    && malicious == MaliciousDrawn(config.operatorCount, stream, from, config.maliciousOperatorRate)
    && Drawn(drafts, to) == DraftsDrawn(config.relayCount, stream, from + config.operatorCount, config)
    && AreRelays(network, drafts, config, malicious)
  }

  /** Everything a network is depends on the generator's stream alone. */
  method MakeNetwork(rng: Rng, config: Config)
    returns (network: seq<Relay>, ghost malicious: set<int>, ghost drafts: seq<Draft>)
    requires rng.Valid() && config.Valid()
    modifies rng
    ensures rng.Valid() && IsNetwork(network, malicious, drafts, rng.stream, old(rng.pos), rng.pos, config)
  {
    var found := PickMalicious(rng, config.operatorCount, config.maliciousOperatorRate);
    network, drafts := MakeRelays(rng, config, found);
    malicious := found;
  }

  ghost predicate WellMadeAll(network: seq<Relay>, config: Config, malicious: set<int>) {
    forall i | 0 <= i < |network| :: WellMade(network[i], i, config, malicious)
  }

  lemma {:induction false} RelaysWellMade(network: seq<Relay>, drafts: seq<Draft>, config: Config, malicious: set<int>)
    requires config.Valid() && InRange(config.rd) && AreRelays(network, drafts, config, malicious)
    requires AllDraftsOk(drafts, config)
    ensures WellMadeAll(network, config, malicious)
  {
    if network != [] {
      var n := |network| - 1;
      RelaysWellMade(network[..n], drafts[..n], config, malicious);
      RelayWellMade(n, drafts[n], config, malicious);
      WellMadeSnoc(network[..n], network[n], config, malicious);
      assert network == network[..n] + [network[n]];
    }
  }

  lemma WellMadeSnoc(network: seq<Relay>, r: Relay, config: Config, malicious: set<int>)
    requires WellMadeAll(network, config, malicious) && WellMade(r, |network|, config, malicious)
    ensures WellMadeAll(network + [r], config, malicious)
  {
  }

  lemma DraftedKeys(network: seq<Relay>, drafts: seq<Draft>, config: Config, malicious: set<int>)
    requires config.Valid() && AreRelays(network, drafts, config, malicious)
    ensures forall i | 0 <= i < |network| :: network[i].pubkey == HexFromInt(i, drafts[i].operator)
  {
  }

  lemma DraftedDistinct(network: seq<Relay>, drafts: seq<Draft>)
    requires |network| == |drafts| <= TWO32
    requires forall i | 0 <= i < |network| :: network[i].pubkey == HexFromInt(i, drafts[i].operator)
    ensures DistinctKeys(network)
  {
    forall i, j | 0 <= i < j < |network| ensures network[i].pubkey != network[j].pubkey {
      KeysDistinct(i, j, drafts[i].operator, drafts[j].operator);
    }
  }

  lemma DraftedOk(drafts: seq<Draft>, n: nat, stream: Stream, pos: nat, to: nat, config: Config)
    requires config.Valid() && Drawn(drafts, to) == DraftsDrawn(n, stream, pos, config)
    ensures |drafts| == n && AllDraftsOk(drafts, config)
  {
    DraftsOk(n, stream, pos, config);
  }

  /** Up to 2^32 relays the keys of a network are distinct. */
  lemma NetworkKeys(network: seq<Relay>, malicious: set<int>, drafts: seq<Draft>, stream: Stream, from: nat, to: nat, config: Config)
    requires config.Valid() && IsNetwork(network, malicious, drafts, stream, from, to, config)
    ensures |network| == config.relayCount
    ensures config.relayCount <= TWO32 ==> DistinctKeys(network)
  {
    DraftedOk(drafts, config.relayCount, stream, from + config.operatorCount, to, config);
    DraftedKeys(network, drafts, config, malicious);
    if config.relayCount <= TWO32 {
      DraftedDistinct(network, drafts);
    }
  }

  /** Every relay of a generated network is well made. */
  lemma NetworkSound(network: seq<Relay>, malicious: set<int>, drafts: seq<Draft>, stream: Stream, from: nat, to: nat, config: Config)
    requires config.Valid() && IsRounding(config.rd) && IsNetwork(network, malicious, drafts, stream, from, to, config)
    ensures WellMadeAll(network, config, malicious)
  {
    DraftedOk(drafts, config.relayCount, stream, from + config.operatorCount, to, config);
    DraftedWellMade(network, drafts, config, malicious);
  }

  lemma DraftedWellMade(network: seq<Relay>, drafts: seq<Draft>, config: Config, malicious: set<int>)
    requires config.Valid() && IsRounding(config.rd) && AreRelays(network, drafts, config, malicious) && AllDraftsOk(drafts, config)
    ensures WellMadeAll(network, config, malicious)
  {
    RoundingInRange(config.rd);
    RelaysWellMade(network, drafts, config, malicious);
  }

  // ---------------------------------------------------------------- what the draws mean

  /** An operator is malicious exactly when its draw falls below the rate; so a rate of 0 gives none and of 1 all. */
  lemma {:induction false} MaliciousIff(n: nat, stream: Stream, pos: nat, rate: real, i: int)
    ensures i in MaliciousDrawn(n, stream, pos, rate) <==> 0 <= i < n && stream(pos + i) as real / TWO32 as real < rate
    ensures rate <= 0.0 ==> i !in MaliciousDrawn(n, stream, pos, rate)
    ensures rate >= 1.0 && 0 <= i < n ==> i in MaliciousDrawn(n, stream, pos, rate)
  {
    if n > 0 {
      MaliciousIff(n - 1, stream, pos, rate, i);
    }
    if 0 <= i < n {
      assert 0.0 <= Draw(stream, pos + i) < 1.0;
    }
  }

  /** Beyond one relay each, a first draw below 0.48 leaves an operator among the first quarter, or the first three,
      and any other one among all; a second draw says which. */
  lemma OperatorMeaning(i: nat, stream: Stream, pos: nat, operatorCount: nat, m: nat)
    requires 1 <= operatorCount <= i && operatorCount <= 0x20_0000
    requires m == if stream(pos) as real / TWO32 as real < 0.48 then
                    if operatorCount / 4 > 3 then operatorCount / 4 else 3
                  else operatorCount
    ensures var j := OperatorDrawn(i, stream, pos, operatorCount).value;
            j < m && TWO32 * j <= stream(pos + 1) * m < TWO32 * (j + 1)
  {
    Shuffling.DrawBelowIs(stream(pos + 1), m, Shuffling.DrawBelow(stream(pos + 1), m));
  }

  /** The three draws behind the region, the reliability and the latency of a relay, after two for its operator when it
      is not one of the first. */
  lemma DraftMeaning(i: nat, stream: Stream, pos: nat, config: Config, p: nat)
    requires config.Valid() && config.regionCount <= 0x20_0000
    requires p == if i < config.operatorCount then pos else pos + 2
    ensures var d := DraftDrawn(i, stream, pos, config);
            && d.pos == p + 3 && (i < config.operatorCount ==> d.value.operator == i)
            && TWO32 * d.value.offset <= stream(p) * config.regionCount < TWO32 * (d.value.offset + 1)
            && d.value.x == stream(p + 1) as real / TWO32 as real
            && d.value.y == stream(p + 2) as real / TWO32 as real
  {
    Shuffling.DrawBelowIs(stream(p), config.regionCount, Shuffling.DrawBelow(stream(p), config.regionCount));
  }

  /** Exact arithmetic, for known figures. */
  function Exact(x: real): real {
    x
  }

  lemma KnownFigures()
    ensures Reliability(Exact, 5, 0.0) == 0.82 && Reliability(Exact, 5, 0.5) == 0.905
    ensures Reliability(Exact, 3, 0.5) == 0.935 && Reliability(Exact, 3, 0.9) == 0.995
    ensures Latency(Exact, 5, 0.5) == 178 && Latency(Exact, 3, 0.5) == 208
    ensures ScoreOf(Exact, 0.905, 178) == 0.8153 && ScoreOf(Exact, 0.82, 345) == 0.6454
  {
  }

  /** The latency is the nearest whole number, of two the larger. */
  lemma LatencyRounds(operator: nat, y: real, l: int)
    requires l == Latency(Exact, operator, y)
    ensures l as real - 0.5 <= 25.0 + 275.0 * y + (15 * (operator % 4)) as real < l as real + 0.5
  {
    assert y * 275.0 == 275.0 * y && operator % 4 * 15 == 15 * (operator % 4);
  }

  lemma KnownClamps()
    ensures Clamp(0.3, 0.0, 1.0) == 0.3 && Clamp(-2.0, 0.0, 1.0) == 0.0 && Clamp(7.0, 0.0, 1.0) == 1.0
  {
  }

  /** Relay 4 of operator 5, drawn in the middle of every range, among six regions. */
  lemma KnownRelay(config: Config, malicious: set<int>)
    requires config.Valid() && config.rd == Exact && config.regionCount == 6
    ensures RelayOf(4, Draft(5, 2, 0.5, 0.5), config, malicious)
         == Relay(HexFromInt(4, 5), 5, 5, 0.905, 178, 0.8153, 5 in malicious)
  {
    KnownFigures();
  }

  // ---------------------------------------------------------------- sorting

  /** The comparator of the score strategy: b.score - a.score || a.latencyMs - b.latencyMs, negative. */
  predicate ScoreBefore(a: Relay, b: Relay) {
    a.score > b.score || (a.score == b.score && a.latencyMs < b.latencyMs)
  }

  ghost predicate Sorted(s: seq<Relay>, before: (Relay, Relay) -> bool) {
    forall i, j | 0 <= i < j < |s| :: !before(s[j], s[i])
  }

  /** Stable insertion from the right. */
  function Insert(s: seq<Relay>, r: Relay, before: (Relay, Relay) -> bool): (t: seq<Relay>)
    ensures |t| == |s| + 1
    ensures multiset(t) == multiset(s) + multiset{r}
  {
    var n := |s| - 1;
    if s != [] && before(r, s[n]) then
      assert s == s[..n] + [s[n]];
      Insert(s[..n], r, before) + [s[n]]
    else s + [r]
  }

  function SortBy(s: seq<Relay>, before: (Relay, Relay) -> bool): (t: seq<Relay>)
    ensures |t| == |s|
    ensures multiset(t) == multiset(s)
  {
    if s == [] then []
    else
      assert s == s[..|s| - 1] + [s[|s| - 1]];
      Insert(SortBy(s[..|s| - 1], before), s[|s| - 1], before)
  }

  lemma {:induction false} InsertSorted(s: seq<Relay>, r: Relay)
    requires Sorted(s, ScoreBefore)
    ensures Sorted(Insert(s, r, ScoreBefore), ScoreBefore)
  {
    var n := |s| - 1;
    if s != [] && ScoreBefore(r, s[n]) {
      var front := Insert(s[..n], r, ScoreBefore);
      InsertSorted(s[..n], r);
      forall x | x in front ensures !ScoreBefore(s[n], x) {
        InsertMember(s[..n], r, x);
      }
    }
  }

  lemma InsertMember(s: seq<Relay>, r: Relay, x: Relay)
    requires x in Insert(s, r, ScoreBefore)
    ensures x == r || x in s
  {
    assert x in multiset(Insert(s, r, ScoreBefore));
    assert x in multiset(s) + multiset{r};
  }

  lemma {:induction false} SortBySorted(s: seq<Relay>)
    ensures Sorted(SortBy(s, ScoreBefore), ScoreBefore)
  {
    if s != [] {
      SortBySorted(s[..|s| - 1]);
      InsertSorted(SortBy(s[..|s| - 1], ScoreBefore), s[|s| - 1]);
    }
  }

  lemma SameMembers(s: seq<Relay>, t: seq<Relay>)
    requires multiset(s) == multiset(t)
    ensures |s| == |t|
    ensures forall r :: r in s <==> r in t
    ensures DistinctKeys(s) ==> DistinctKeys(t)
  {
    assert |s| == |multiset(s)| == |multiset(t)| == |t|;
    forall r ensures r in s <==> r in t {
      assert r in s <==> r in multiset(s);
      assert r in t <==> r in multiset(t);
    }
    if DistinctKeys(s) {
      DistinctKeysOfPermutation(s, t);
    }
  }

  lemma DistinctKeysOfPermutation(s: seq<Relay>, t: seq<Relay>)
    requires multiset(s) == multiset(t) && DistinctKeys(s)
    ensures DistinctKeys(t)
  {
    forall i, j | 0 <= i < j < |t| ensures t[i].pubkey != t[j].pubkey {
      assert t[i] in multiset(t) && t[j] in multiset(t);
      var a :| 0 <= a < |s| && s[a] == t[i];
      var b :| 0 <= b < |s| && s[b] == t[j];
      if a == b {
        TwiceIn(t, i, j);
        OnceIn(s, a);
      }
    }
  }

  lemma TwiceIn(t: seq<Relay>, i: nat, j: nat)
    requires i < j < |t| && t[i] == t[j]
    ensures multiset(t)[t[i]] >= 2
  {
    assert t == t[..j] + [t[j]] + t[j + 1..];
    assert t[..j][i] == t[i];
    assert t[i] in multiset(t[..j]);
  }

  lemma OnceIn(s: seq<Relay>, a: nat)
    requires a < |s| && DistinctKeys(s)
    ensures multiset(s)[s[a]] == 1
  {
    var r := s[a];
    assert s == s[..a] + [r] + s[a + 1..];
    assert r !in s[..a] && r !in s[a + 1..];
    assert r !in multiset(s[..a]) && r !in multiset(s[a + 1..]);
  }

  // ---------------------------------------------------------------- picking relays

  function Pool(network: seq<Relay>, exclude: set<Text>): (pool: seq<Relay>)
    ensures forall r :: r in pool <==> r in network && r.pubkey !in exclude
  {
    if network == [] then []
    else
      var n := |network| - 1;
      assert network == network[..n] + [network[n]];
      Pool(network[..n], exclude) + if network[n].pubkey in exclude then [] else [network[n]]
  }

  lemma {:induction false} PoolDistinct(network: seq<Relay>, exclude: set<Text>)
    requires DistinctKeys(network)
    ensures DistinctKeys(Pool(network, exclude))
  {
    if network != [] {
      var n := |network| - 1;
      PoolDistinct(network[..n], exclude);
      var front := Pool(network[..n], exclude);
      forall i | 0 <= i < |front| ensures front[i].pubkey != network[n].pubkey {
        assert front[i] in front;
      }
    }
  }

  /** What is picked from a pool: the first of it shuffled or stably sorted, or the diverse ones. */
  ghost function PickedFrom(pool: seq<Relay>, count: nat, strategy: Selection, stream: Stream, pos: nat): seq<Relay> {
    var n := Min(count, |pool|);
    if count == 0 then []
    else
      match strategy
      case Random => Shuffling.Shuffled(pool, Shuffling.StreamDraws(stream, pos, |pool|))[..n]
      case Score => SortBy(pool, ScoreBefore)[..n]
      case Diverse => Quorum.SelectedFrom(SortBy(pool, Quorum.RankBefore), count, [])
  }

  /** Only a random pick draws: one draw less than the pool has relays. */
  function DrawsOfPick(pool: seq<Relay>, count: nat, strategy: Selection): nat {
    if strategy != Random || count == 0 || pool == [] then 0 else |pool| - 1
  }

  /** What pickRelays picks from the stream at a position. */
  ghost function PickDrawn(network: seq<Relay>, count: nat, strategy: Selection, exclude: set<Text>, stream: Stream, pos: nat)
    : Drawn<seq<Relay>>
  {
    var pool := Pool(network, exclude);
    Drawn(PickedFrom(pool, count, strategy, stream, pos), pos + DrawsOfPick(pool, count, strategy))
  }

  method PickRelays(network: seq<Relay>, count: nat, strategy: Selection, rng: Rng, exclude: set<Text>)
    returns (picked: seq<Relay>)
    requires rng.Valid()
    modifies rng
    ensures rng.Valid() && Drawn(picked, rng.pos) == PickDrawn(network, count, strategy, exclude, rng.stream, old(rng.pos))
  {
    var pool := Pool(network, exclude);
    if count == 0 { return []; }
    match strategy
    case Random =>
      var copy := rng.Shuffle(pool);
      picked := copy[..Min(count, copy.Length)];
      assert picked == copy[..][..Min(count, |pool|)];
    case Score => picked := SortBy(pool, ScoreBefore)[..Min(count, |pool|)];
    case Diverse => picked := Quorum.SelectDiverse(SortBy(pool, Quorum.RankBefore), count);
  }

  lemma SplitLast(s: seq<Relay>) returns (front: seq<Relay>, last: Relay)
    requires s != []
    ensures s == front + [last] && front == s[..|s| - 1] && last == s[|s| - 1]
  {
    front, last := s[..|s| - 1], s[|s| - 1];
  }

  lemma InsertAtEnd(s: seq<Relay>, r: Relay, before: (Relay, Relay) -> bool)
    requires s != [] ==> !before(r, s[|s| - 1])
    ensures Insert(s, r, before) == s + [r]
  {
  }

  lemma {:induction false} SortedUnchanged(s: seq<Relay>, before: (Relay, Relay) -> bool)
    requires Sorted(s, before)
    ensures SortBy(s, before) == s
    decreases |s|
  {
    if s != [] {
      var front, last := SplitLast(s);
      SortedUnchanged(front, before);
      InsertAtEnd(front, last, before);
    }
  }

  /** Sorting is stable: relays of equal score and latency stay as they are, and so does a pool in order. */
  lemma ScoreSortStable(pool: seq<Relay>)
    requires forall i, j | 0 <= i < j < |pool| ::
               pool[j].score < pool[i].score || (pool[j].score == pool[i].score && pool[j].latencyMs >= pool[i].latencyMs)
    ensures SortBy(pool, ScoreBefore) == pool
  {
    SortedUnchanged(pool, ScoreBefore);
  }

  /** With nothing excluded the pool is the network, in its order; an excluded key drops its relay. */
  lemma {:induction false} PoolOfAll(network: seq<Relay>)
    ensures Pool(network, {}) == network
  {
    if network != [] {
      PoolOfAll(network[..|network| - 1]);
      assert network == network[..|network| - 1] + [network[|network| - 1]];
    }
  }

  lemma PoolSnoc(network: seq<Relay>, r: Relay, exclude: set<Text>)
    ensures Pool(network + [r], exclude) == Pool(network, exclude) + if r.pubkey in exclude then [] else [r]
  {
    assert (network + [r])[..|network|] == network;
  }

  // ---------------------------------------------------------------- what a pick is like

  /** From the pool, none twice, as many as there are up to count. */
  ghost predicate FairFrom(pool: seq<Relay>, count: nat, picked: seq<Relay>) {
    && |picked| <= count
    && (forall r | r in picked :: r in pool)
    && (DistinctKeys(pool) ==> DistinctKeys(picked) && |picked| == Min(count, |pool|))
  }

  lemma PrefixFair(pool: seq<Relay>, listed: seq<Relay>, count: nat)
    requires multiset(pool) == multiset(listed) && |listed| == |pool|
    ensures FairFrom(pool, count, listed[..Min(count, |pool|)])
  {
    SameMembers(pool, listed);
  }

  /** The diverse pick is greedy in the pool, whatever the order of the pool. */
  lemma DiverseGreedy(pool: seq<Relay>, count: nat)
    ensures Quorum.Greedy(pool, Quorum.SelectedFrom(SortBy(pool, Quorum.RankBefore), count, []))
    ensures FairFrom(pool, count, Quorum.SelectedFrom(SortBy(pool, Quorum.RankBefore), count, []))
  {
    var ranked := SortBy(pool, Quorum.RankBefore);
    var picked := Quorum.SelectedFrom(ranked, count, []);
    SameMembers(pool, ranked);
    Quorum.SelectedSound(ranked, count, []);
    Quorum.GreedyDistinct(ranked, picked);
    GreedyOfPermutation(ranked, pool, picked);
    if DistinctKeys(pool) {
      DiverseSize(pool, ranked, picked, count);
    }
  }

  lemma PickedFair(pool: seq<Relay>, count: nat, strategy: Selection, stream: Stream, pos: nat)
    ensures FairFrom(pool, count, PickedFrom(pool, count, strategy, stream, pos))
  {
    if count > 0 {
      match strategy
      case Random =>
        var draws := Shuffling.StreamDraws(stream, pos, |pool|);
        Shuffling.ShuffledMultiset(pool, draws);
        PrefixFair(pool, Shuffling.Shuffled(pool, draws), count);
      case Score => PrefixFair(pool, SortBy(pool, ScoreBefore), count);
      case Diverse => DiverseGreedy(pool, count);
    }
  }

  /** A pick has only relays of the network that are not excluded, none twice, and as many as there are up to count. */
  lemma PickSound(network: seq<Relay>, count: nat, strategy: Selection, exclude: set<Text>, stream: Stream, pos: nat)
    ensures var picked := PickDrawn(network, count, strategy, exclude, stream, pos).value;
            && |picked| <= count
            && (forall r | r in picked :: r in network && r.pubkey !in exclude)
            && (DistinctKeys(network) ==> DistinctKeys(picked) && |picked| == Min(count, |Pool(network, exclude)|))
  {
    PickedFair(Pool(network, exclude), count, strategy, stream, pos);
    if DistinctKeys(network) {
      PoolDistinct(network, exclude);
    }
  }

  /** Nobody who is left out of a score pick scores better than anybody in it. */
  lemma ScoreBest(pool: seq<Relay>, count: nat, p: Relay, q: Relay)
    requires var picked := SortBy(pool, ScoreBefore)[..Min(count, |pool|)]; p in picked && q in pool && q !in picked
    ensures q.score < p.score || (q.score == p.score && q.latencyMs >= p.latencyMs)
  {
    var sorted := SortBy(pool, ScoreBefore);
    var picked := sorted[..Min(count, |pool|)];
    SameMembers(pool, sorted);
    SortBySorted(pool);
    var j :| 0 <= j < |sorted| && sorted[j] == q;
    var i :| 0 <= i < |picked| && picked[i] == p;
    assert sorted[j] !in picked;
  }

  lemma DiverseSize(pool: seq<Relay>, ranked: seq<Relay>, picked: seq<Relay>, count: nat)
    requires DistinctKeys(pool) && DistinctKeys(picked) && (forall r :: r in pool <==> r in ranked) && forall r | r in picked :: r in pool
    requires |picked| <= count && Quorum.Complete(ranked, count, picked)
    ensures |picked| == Min(count, |pool|)
  {
    KeysSize(pool);
    KeysSize(picked);
    KeysOfMembers(picked, pool);
    if |picked| < count {
      KeysOfMembers(pool, ranked);
      assert Keys(pool) == Keys(picked);
    } else {
      SubsetSize(Keys(picked), Keys(pool));
    }
  }

  lemma GreedyOfPermutation(ranked: seq<Relay>, pool: seq<Relay>, picked: seq<Relay>)
    requires forall r :: r in ranked <==> r in pool
    requires Quorum.Greedy(ranked, picked)
    ensures Quorum.Greedy(pool, picked)
  {
  }

  lemma KeysOfMembers(s: seq<Relay>, t: seq<Relay>)
    requires forall r | r in s :: r in t
    ensures Keys(s) <= Keys(t)
  {
    forall k | k in Keys(s) ensures k in Keys(t) {
      var i :| 0 <= i < |s| && s[i].pubkey == k;
      assert s[i] in t;
      var j :| 0 <= j < |t| && t[j] == s[i];
    }
  }

  lemma {:induction false} KeysSize(s: seq<Relay>)
    requires DistinctKeys(s)
    ensures |Keys(s)| == |s|
  {
    if s == [] {
      assert Keys(s) == {};
    } else {
      var front, r := s[..|s| - 1], s[|s| - 1];
      KeysSize(front);
      assert s == front + [r];
      Quorum.KeysSnoc(front, r);
      assert r.pubkey !in Keys(front);
    }
  }
}
