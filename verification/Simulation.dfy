/** scripts/simulate-blind-atomic-custody.js: the expiry witnesses and the totals of a scenario. */
module Simulation {
  import opened Texts
  import opened JsNumbers
  import opened Relays
  import opened Custody
  import Fnv
  import Quorum
  import Shuffling

  class Totals {
    var committed: nat
    var available: nat
    var adversaryReconstructs: nat
    var activeServing: nat
    var undetected: nat
    var custodyRegions: nat
    var custodyOperators: nat
    var witnessRegions: nat
    var witnessOperators: nat
    var honestWitnesses: nat
    var witnessProbes: nat

    ghost function Value(): Tally
      reads this
    {
      Tally(committed, available, adversaryReconstructs, activeServing, undetected, custodyRegions, custodyOperators,
            witnessRegions, witnessOperators, honestWitnesses, witnessProbes)
    }

    constructor ()
      ensures Value() == ZERO
    {
      committed, available, adversaryReconstructs, activeServing, undetected := 0, 0, 0, 0, 0;
      custodyRegions, custodyOperators, witnessRegions, witnessOperators := 0, 0, 0, 0;
      honestWitnesses, witnessProbes := 0, 0;
    }
  }

  function RegionCount(relays: seq<Relay>): nat {
    |set r | r in relays :: r.region|
  }

  function OperatorCount(relays: seq<Relay>): nat {
    |set r | r in relays :: r.operator|
  }

  function Honest(relays: seq<Relay>): (r: seq<Relay>)
    ensures |r| <= |relays|
  {
    if relays == [] then []
    else Honest(relays[..|relays| - 1]) + if relays[|relays| - 1].malicious then [] else [relays[|relays| - 1]]
  }

  lemma {:induction false} HonestConcat(a: seq<Relay>, b: seq<Relay>)
    ensures Honest(a + b) == Honest(a) + Honest(b)
  {
    if b == [] {
      assert a + b == a;
    } else {
      HonestConcat(a, b[..|b| - 1]);
      assert (a + b)[..|a + b| - 1] == a + b[..|b| - 1];
    }
  }

  // ---------------------------------------------------------------- coin flips over receipts

  /** What a coin flip is about, with its rates. */
  datatype Flip = Anchoring(rd: real -> real) | Serving(malicious: real, honest: real)

  function Rate(flip: Flip, relay: Relay): real {
    match flip
    case Anchoring(rd) => Clamp(rd(relay.reliability + (if relay.malicious then rd(0.04) else 0.0)), 0.0, rd(0.998))
    case Serving(malicious, honest) => if relay.malicious then malicious else honest
  }

  /** The relays for which the coin falls, one draw each. */
  function Flipped(relays: seq<Relay>, flip: Flip, stream: Stream, pos: nat): (r: seq<Relay>)
    ensures |r| <= |relays|
  {
    if relays == [] then []
    else
      var n := |relays| - 1;
      Flipped(relays[..n], flip, stream, pos) + if Draw(stream, pos + n) < Rate(flip, relays[n]) then [relays[n]] else []
  }

  lemma {:induction false} FlippedMembers(relays: seq<Relay>, flip: Flip, stream: Stream, pos: nat)
    ensures forall r | r in Flipped(relays, flip, stream, pos) :: r in relays
  {
    if relays != [] {
      FlippedMembers(relays[..|relays| - 1], flip, stream, pos);
    }
  }

  lemma FlippedSnoc(relays: seq<Relay>, i: nat, flip: Flip, stream: Stream, pos: nat)
    requires i < |relays|
    ensures Flipped(relays[..i + 1], flip, stream, pos)
         == Flipped(relays[..i], flip, stream, pos) + if Draw(stream, pos + i) < Rate(flip, relays[i]) then [relays[i]] else []
  {
    assert relays[..i + 1][..i] == relays[..i];
  }

  /** relays.filter with a coin flip. */
  method FilterByCoin(relays: seq<Relay>, flip: Flip, rng: Rng) returns (r: seq<Relay>)
    requires rng.Valid()
    modifies rng
    ensures rng.Valid() && rng.pos == old(rng.pos) + |relays|
    ensures r == Flipped(relays, flip, rng.stream, old(rng.pos))
  {
    r := [];
    for i := 0 to |relays|
      invariant rng.Valid() && rng.pos == old(rng.pos) + i
      invariant r == Flipped(relays[..i], flip, rng.stream, old(rng.pos))
    {
      var x := NextReal(rng);
      FlippedSnoc(relays, i, flip, rng.stream, old(rng.pos));
      if x < Rate(flip, relays[i]) { r := r + [relays[i]]; }
    }
    assert relays[..|relays|] == relays;
  }

  /** Whether a relay still serves: online, and not censoring; a malicious relay draws twice. */
  function ServesDrawn(r: Relay, censorRate: real, stream: Stream, pos: nat): Drawn<bool> {
    var online := Draw(stream, pos) < r.reliability;
    if r.malicious then Drawn(online && Draw(stream, pos + 1) >= censorRate, pos + 2) else Drawn(online, pos + 1)
  }

  method Serves(r: Relay, rng: Rng, config: Config) returns (b: bool)
    requires rng.Valid()
    modifies rng
    ensures rng.Valid() && Drawn(b, rng.pos) == ServesDrawn(r, config.maliciousCensorRate, rng.stream, old(rng.pos))
  {
    var x := NextReal(rng);
    var online := x < r.reliability;
    var censoring := false;
    if r.malicious {
      var y := NextReal(rng);
      censoring := y < config.maliciousCensorRate;
    }
    b := online && !censoring;
  }

  /** How many receipts still serve. */
  function ServingDrawn(receipts: seq<Relay>, censorRate: real, stream: Stream, pos: nat): (d: Drawn<nat>)
    ensures d.value <= |receipts|
  {
    if receipts == [] then Drawn(0, pos)
    else
      var front := ServingDrawn(receipts[..|receipts| - 1], censorRate, stream, pos);
      var last := ServesDrawn(receipts[|receipts| - 1], censorRate, stream, front.pos);
      Drawn(front.value + One(last.value), last.pos)
  }

  method CountServing(receipts: seq<Relay>, rng: Rng, config: Config) returns (serving: nat)
    requires rng.Valid()
    modifies rng
    ensures rng.Valid() && Drawn(serving, rng.pos) == ServingDrawn(receipts, config.maliciousCensorRate, rng.stream, old(rng.pos))
  {
    serving := 0;
    for i := 0 to |receipts|
      invariant rng.Valid()
      invariant Drawn(serving, rng.pos) == ServingDrawn(receipts[..i], config.maliciousCensorRate, rng.stream, old(rng.pos))
    {
      assert receipts[..i + 1][..i] == receipts[..i];
      var serves := Serves(receipts[i], rng, config);
      if serves { serving := serving + 1; }
    }
    assert receipts[..|receipts|] == receipts;
  }

  function AdversaryCanReconstruct(receipts: seq<Relay>, scenario: Scenario): bool {
    var malicious := |receipts| - |Honest(receipts)|;
    if scenario.fullMirror then malicious >= 1 else malicious >= scenario.readThreshold
  }

  /** One of the next n draws is below the rate. */
  ghost predicate SomeBelow(stream: Stream, pos: nat, n: nat, rate: real) {
    exists t :: pos <= t < pos + n && Draw(stream, t) < rate
  }

  /** One honest witness asks about one violator after the other; the first draw below the rate ends it. */
  method ViolationDetected(violators: seq<Relay>, honestWitnesses: seq<Relay>, rng: Rng, config: Config) returns (b: bool)
    requires rng.Valid()
    modifies rng
    ensures rng.Valid()
    ensures violators == [] ==> b
    ensures violators != [] ==>
              (b <==> SomeBelow(rng.stream, old(rng.pos), |violators| * |honestWitnesses|, config.witnessDetectRate))
    ensures !b ==> rng.pos == old(rng.pos) + |violators| * |honestWitnesses|
  {
    if |violators| == 0 { return true; }
    var n := |honestWitnesses|;
    for i := 0 to |violators|
      invariant rng.Valid() && rng.pos == old(rng.pos) + i * n
      invariant !SomeBelow(rng.stream, old(rng.pos), i * n, config.witnessDetectRate)
    {
      ghost var start := rng.pos;
      ProductBound(i, |violators|, n);
      for j := 0 to n
        invariant rng.Valid() && rng.pos == start + j
        invariant !SomeBelow(rng.stream, old(rng.pos), i * n + j, config.witnessDetectRate)
      {
        var x := NextReal(rng);
        if x < config.witnessDetectRate { return true; }
      }
    }
    return false;
  }

  lemma ProductBound(i: nat, m: nat, n: nat)
    requires i < m
    ensures i * n + n == (i + 1) * n <= m * n
  {
    assert m * n == (i + 1) * n + (m - i - 1) * n;
    assert (m - i - 1) * n >= 0;
  }

  // ---------------------------------------------------------------- the witness rounds

  /** Witnesses are relays of the network, none a custodian, none called twice. */
  ghost predicate Independent(network: seq<Relay>, custodians: seq<Relay>, witnesses: seq<Relay>) {
    && DistinctKeys(witnesses)
    && forall w | w in witnesses :: w in network && w.pubkey !in Keys(custodians)
  }

  lemma IndependentConcat(network: seq<Relay>, custodians: seq<Relay>, a: seq<Relay>, b: seq<Relay>, exclude: set<Text>)
    requires Independent(network, custodians, a) && DistinctKeys(b)
    requires Keys(custodians) + Keys(a) <= exclude
    requires forall w | w in b :: w in network && w.pubkey !in exclude
    ensures Independent(network, custodians, a + b)
  {
    var c := a + b;
    forall i, j | 0 <= i < j < |c| ensures c[i].pubkey != c[j].pubkey {
      if i < |a| <= j {
        assert a[i].pubkey in Keys(a) && b[j - |a|] in b;
      }
    }
  }

  lemma KeysConcat(a: seq<Relay>, b: seq<Relay>)
    ensures Keys(a + b) == Keys(a) + Keys(b)
  {
    forall k | k in Keys(a) + Keys(b) ensures k in Keys(a + b) {
      if k in Keys(a) {
        var i :| 0 <= i < |a| && a[i].pubkey == k;
        assert (a + b)[i].pubkey == k;
      } else {
        var i :| 0 <= i < |b| && b[i].pubkey == k;
        assert (a + b)[|a| + i].pubkey == k;
      }
    }
  }

  /** What is picked at a position of the stream when some relays are excluded. */
  type Pick = (set<Text>, nat) -> Drawn<seq<Relay>>

  /** What the witness rounds start from. */
  datatype Case = Case(network: seq<Relay>, custodians: seq<Relay>, violators: seq<Relay>, scenario: Scenario, config: Config)

  /** One round: where in the stream it starts, whom it picks, and where its probes start. */
  datatype Round = Round(start: nat, witnesses: seq<Relay>, probes: nat)
  {
    /** The draws of a round that finds nothing: every honest witness asks about every violator. */
    function End(c: Case): nat {
      probes + |c.violators| * |Honest(witnesses)|
    }

    /** A probe of this round succeeds. */
    ghost predicate Hit(c: Case, stream: Stream) {
      SomeBelow(stream, probes, |c.violators| * |Honest(witnesses)|, c.config.witnessDetectRate)
    }
  }

  function Witnesses(rounds: seq<Round>): seq<Relay> {
    if rounds == [] then [] else Witnesses(rounds[..|rounds| - 1]) + rounds[|rounds| - 1].witnesses
  }

  /** Nobody who held the data, and nobody who was asked before. */
  function Excluded(c: Case, rounds: seq<Round>): set<Text> {
    Keys(c.custodians) + Keys(Witnesses(rounds))
  }

  /** Where the round after these starts, when they found nothing. */
  function EndOf(c: Case, rounds: seq<Round>, pos: nat): nat {
    if rounds == [] then pos else rounds[|rounds| - 1].End(c)
  }

  /** `r` is the round after `before`. */
  ghost predicate Follows(c: Case, before: seq<Round>, r: Round, pick: Pick, pos: nat) {
    r.start == EndOf(c, before, pos) && Drawn(r.witnesses, r.probes) == pick(Excluded(c, before), r.start)
  }

  ghost predicate AreRounds(c: Case, rounds: seq<Round>, pick: Pick, pos: nat) {
    forall i | 0 <= i < |rounds| :: Follows(c, rounds[..i], rounds[i], pick, pos)
  }

  ghost predicate Missed(c: Case, rounds: seq<Round>, stream: Stream) {
    forall r | r in rounds :: !r.Hit(c, stream)
  }

  /** What the rounds come to: none without violators or witnesses; otherwise until a probe succeeds or all are done. */
  ghost predicate Witnessed(c: Case, rounds: seq<Round>, detected: bool, pick: Pick, stream: Stream, pos: nat) {
    && AreRounds(c, rounds, pick, pos)
    && |rounds| <= c.scenario.Rounds()
    && (c.violators == [] ==> detected && rounds == [])
    && (c.violators != [] && c.scenario.witnessCount == 0 ==> !detected && rounds == [])
    && (c.violators != [] && c.scenario.witnessCount > 0 ==>
          && (detected ==> rounds != [] && Missed(c, rounds[..|rounds| - 1], stream) && rounds[|rounds| - 1].Hit(c, stream))
          && (!detected ==> Missed(c, rounds, stream) && |rounds| == c.scenario.Rounds()))
  }

  /** How witnesses are picked. */
  ghost function WitnessPick(network: seq<Relay>, scenario: Scenario, stream: Stream): Pick {
    (exclude: set<Text>, pos: nat) => PickDrawn(network, scenario.witnessCount, scenario.witnessSelection, exclude, stream, pos)
  }

  /** `pick` is what pickRelays does. */
  ghost predicate IsWitnessPick(pick: Pick, network: seq<Relay>, scenario: Scenario, stream: Stream) {
    forall exclude: set<Text>, pos: nat
      {:trigger PickDrawn(network, scenario.witnessCount, scenario.witnessSelection, exclude, stream, pos)} ::
      pick(exclude, pos) == PickDrawn(network, scenario.witnessCount, scenario.witnessSelection, exclude, stream, pos)
  }

  lemma WitnessPickIs(network: seq<Relay>, scenario: Scenario, stream: Stream)
    ensures IsWitnessPick(WitnessPick(network, scenario, stream), network, scenario, stream)
  {
  }

  lemma RoundsSnoc(c: Case, rounds: seq<Round>, r: Round, pick: Pick, pos: nat)
    requires AreRounds(c, rounds, pick, pos) && Follows(c, rounds, r, pick, pos)
    ensures AreRounds(c, rounds + [r], pick, pos)
    ensures Witnesses(rounds + [r]) == Witnesses(rounds) + r.witnesses
  {
    var all := rounds + [r];
    assert all[..|rounds|] == rounds;
    forall i | 0 <= i < |all| ensures Follows(c, all[..i], all[i], pick, pos) {
      assert i < |rounds| ==> all[..i] == rounds[..i] && all[i] == rounds[i];
    }
  }

  lemma MissedSnoc(c: Case, rounds: seq<Round>, r: Round, stream: Stream)
    requires Missed(c, rounds, stream)
    ensures (rounds + [r])[..|rounds|] == rounds
    ensures !r.Hit(c, stream) ==> Missed(c, rounds + [r], stream)
  {
  }

  /** The sums over witnesses that the totals keep. */
  datatype Sums = Sums(regions: nat, operators: nat, probes: nat, honest: nat)
  {
    function Plus(w: seq<Relay>): Sums {
      Sums(regions + RegionCount(w), operators + OperatorCount(w), probes + |w|, honest + |Honest(w)|)
    }
  }

  function SumsOf(rounds: seq<Round>): Sums {
    if rounds == [] then Sums(0, 0, 0, 0) else SumsOf(rounds[..|rounds| - 1]).Plus(rounds[|rounds| - 1].witnesses)
  }

  lemma SumsSnoc(rounds: seq<Round>, r: Round)
    ensures SumsOf(rounds + [r]) == SumsOf(rounds).Plus(r.witnesses)
  {
    assert (rounds + [r])[..|rounds|] == rounds;
  }

  function AddSums(t: Tally, sums: Sums): Tally {
    t.(witnessRegions := t.witnessRegions + sums.regions, witnessOperators := t.witnessOperators + sums.operators,
       witnessProbes := t.witnessProbes + sums.probes, honestWitnesses := t.honestWitnesses + sums.honest)
  }

  lemma AddSumsSnoc(t: Tally, rounds: seq<Round>, r: Round)
    ensures AddSums(t, SumsOf(rounds + [r])) == AddSums(AddSums(t, SumsOf(rounds)), Sums(0, 0, 0, 0).Plus(r.witnesses))
  {
    SumsSnoc(rounds, r);
  }

  method CountWitnesses(witnesses: seq<Relay>, honest: seq<Relay>, totals: Totals)
    requires honest == Honest(witnesses)
    modifies totals
    ensures totals.Value() == AddSums(old(totals.Value()), Sums(0, 0, 0, 0).Plus(witnesses))
  {
    totals.witnessRegions := totals.witnessRegions + RegionCount(witnesses);
    totals.witnessOperators := totals.witnessOperators + OperatorCount(witnesses);
    totals.witnessProbes := totals.witnessProbes + |witnesses|;
    totals.honestWitnesses := totals.honestWitnesses + |honest|;
  }

  /** One round: pick, exclude from now on, count, probe. */
  method WitnessRound(ghost c: Case, ghost before: seq<Round>, ghost pick: Pick, ghost pos: nat, network: seq<Relay>, violators: seq<Relay>,
                      scenario: Scenario, rng: Rng, config: Config, totals: Totals, exclude: set<Text>)
    returns (detected: bool, excluded: set<Text>, ghost r: Round)
    requires rng.Valid() && rng.pos == EndOf(c, before, pos) && IsWitnessPick(pick, network, scenario, rng.stream)
    requires c == Case(network, c.custodians, violators, scenario, config) && violators != [] && exclude == Excluded(c, before)
    modifies rng, totals
    ensures rng.Valid() && Follows(c, before, r, pick, pos)
    ensures detected <==> r.Hit(c, rng.stream)
    ensures !detected ==> rng.pos == r.End(c)
    ensures excluded == exclude + Keys(r.witnesses)
    ensures totals.Value() == AddSums(old(totals.Value()), Sums(0, 0, 0, 0).Plus(r.witnesses))
  {
    var picked := PickRelays(network, scenario.witnessCount, scenario.witnessSelection, rng, exclude);
    r := Round(old(rng.pos), picked, rng.pos);
    assert Follows(c, before, r, pick, pos);
    excluded := exclude + Keys(picked);
    var honest := Honest(picked);
    CountWitnesses(picked, honest, totals);
    detected := ViolationDetected(violators, honest, rng, config);
  }

  /** What a round that follows changes. */
  lemma RoundExtends(c: Case, rounds: seq<Round>, r: Round, pick: Pick, stream: Stream, pos: nat)
    requires AreRounds(c, rounds, pick, pos) && Missed(c, rounds, stream) && Follows(c, rounds, r, pick, pos)
    ensures AreRounds(c, rounds + [r], pick, pos)
    ensures EndOf(c, rounds + [r], pos) == r.End(c)
    ensures (rounds + [r])[..|rounds|] == rounds
    ensures !r.Hit(c, stream) ==> Missed(c, rounds + [r], stream)
  {
    RoundsSnoc(c, rounds, r, pick, pos);
    MissedSnoc(c, rounds, r, stream);
  }

  lemma ExcludedSnoc(c: Case, rounds: seq<Round>, r: Round)
    ensures Excluded(c, rounds + [r]) == Excluded(c, rounds) + Keys(r.witnesses)
  {
    assert (rounds + [r])[..|rounds|] == rounds;
    assert Witnesses(rounds + [r]) == Witnesses(rounds) + r.witnesses;
    KeysConcat(Witnesses(rounds), r.witnesses);
  }

  /** The loop over rounds. */
  method RunRounds(ghost c: Case, network: seq<Relay>, custodians: seq<Relay>, violators: seq<Relay>,
                   scenario: Scenario, rng: Rng, config: Config, totals: Totals, ghost pick: Pick)
    returns (detected: bool, ghost rounds: seq<Round>)
    requires rng.Valid() && IsWitnessPick(pick, network, scenario, rng.stream)
    requires c == Case(network, custodians, violators, scenario, config) && violators != []
    modifies rng, totals
    ensures rng.Valid() && AreRounds(c, rounds, pick, old(rng.pos)) && |rounds| <= scenario.Rounds()
    ensures detected ==> rounds != [] && Missed(c, rounds[..|rounds| - 1], rng.stream) && rounds[|rounds| - 1].Hit(c, rng.stream)
    ensures !detected ==> Missed(c, rounds, rng.stream) && |rounds| == scenario.Rounds()
    ensures totals.Value() == AddSums(old(totals.Value()), SumsOf(rounds))
  {
    rounds := [];
    var n := scenario.Rounds();
    var exclude := Keys(custodians);
    assert exclude == Excluded(c, []);
    var round := 0;
    while round < n
      invariant round == |rounds| <= n && rng.Valid() && rng.pos == EndOf(c, rounds, old(rng.pos))
      invariant exclude == Excluded(c, rounds)
      invariant AreRounds(c, rounds, pick, old(rng.pos)) && Missed(c, rounds, rng.stream)
      invariant totals.Value() == AddSums(old(totals.Value()), SumsOf(rounds))
    {
      ghost var r;
      detected, exclude, r := WitnessRound(c, rounds, pick, old(rng.pos), network, violators, scenario, rng, config, totals, exclude);
      AddSumsSnoc(old(totals.Value()), rounds, r);
      RoundExtends(c, rounds, r, pick, rng.stream, old(rng.pos));
      ExcludedSnoc(c, rounds, r);
      rounds := rounds + [r];
      if detected { return true, rounds; }
      round := round + 1;
    }
    return false, rounds;
  }

  lemma WitnessedIs(c: Case, rounds: seq<Round>, detected: bool, pick: Pick, stream: Stream, pos: nat)
    requires c.violators != [] && c.scenario.witnessCount > 0 && AreRounds(c, rounds, pick, pos) && |rounds| <= c.scenario.Rounds()
    requires detected ==> rounds != [] && Missed(c, rounds[..|rounds| - 1], stream) && rounds[|rounds| - 1].Hit(c, stream)
    requires !detected ==> Missed(c, rounds, stream) && |rounds| == c.scenario.Rounds()
    ensures Witnessed(c, rounds, detected, pick, stream, pos)
  {
  }

  lemma WitnessedNone(c: Case, pick: Pick, stream: Stream, pos: nat)
    requires c.violators == [] || c.scenario.witnessCount == 0
    ensures Witnessed(c, [], c.violators == [], pick, stream, pos)
  {
  }

  /** The rounds of witnesses, exactly as the stream has them. */
  method WitnessViolationDetected(network: seq<Relay>, custodians: seq<Relay>, violators: seq<Relay>,
                                  scenario: Scenario, rng: Rng, config: Config, totals: Totals, ghost pick: Pick)
    returns (detected: bool, ghost rounds: seq<Round>)
    requires rng.Valid() && IsWitnessPick(pick, network, scenario, rng.stream)
    modifies rng, totals
    ensures rng.Valid()
    ensures Witnessed(Case(network, custodians, violators, scenario, config), rounds, detected, pick, rng.stream, old(rng.pos))
    ensures totals.Value() == AddSums(old(totals.Value()), SumsOf(rounds))
  {
    ghost var c := Case(network, custodians, violators, scenario, config);
    if |violators| == 0 || scenario.witnessCount == 0 {
      WitnessedNone(c, pick, rng.stream, rng.pos);
      return |violators| == 0, [];
    }
    detected, rounds := RunRounds(c, network, custodians, violators, scenario, rng, config, totals, pick);
    WitnessedIs(c, rounds, detected, pick, rng.stream, old(rng.pos));
  }

  // ---------------------------------------------------------------- what the rounds guarantee

  /** Witnesses of one round: no more than asked for, from the network, none excluded, none twice. */
  ghost predicate FairPick(network: seq<Relay>, count: nat, exclude: set<Text>, w: seq<Relay>) {
    && |w| <= count
    && (forall r | r in w :: r in network && r.pubkey !in exclude)
    && (DistinctKeys(network) ==> DistinctKeys(w))
  }

  ghost predicate Fair(pick: Pick, network: seq<Relay>, scenario: Scenario) {
    forall exclude: set<Text>, pos: nat :: FairPick(network, scenario.witnessCount, exclude, pick(exclude, pos).value)
  }

  lemma WitnessPickFair(network: seq<Relay>, scenario: Scenario, stream: Stream)
    ensures Fair(WitnessPick(network, scenario, stream), network, scenario)
  {
    forall exclude: set<Text>, pos: nat
      ensures FairPick(network, scenario.witnessCount, exclude, WitnessPick(network, scenario, stream)(exclude, pos).value) {
      PickSound(network, scenario.witnessCount, scenario.witnessSelection, exclude, stream, pos);
    }
  }

  /** Every round picks fairly, outside the custodians and the witnesses before it. */
  ghost predicate FairRounds(c: Case, rounds: seq<Round>) {
    forall i | 0 <= i < |rounds| :: FairPick(c.network, c.scenario.witnessCount, Excluded(c, rounds[..i]), rounds[i].witnesses)
  }

  lemma AreFair(c: Case, rounds: seq<Round>, pick: Pick, pos: nat)
    requires AreRounds(c, rounds, pick, pos) && Fair(pick, c.network, c.scenario)
    ensures FairRounds(c, rounds)
  {
    forall i | 0 <= i < |rounds|
      ensures FairPick(c.network, c.scenario.witnessCount, Excluded(c, rounds[..i]), rounds[i].witnesses) {
      assert Follows(c, rounds[..i], rounds[i], pick, pos);
    }
  }

  lemma {:induction false} RoundsIndependent(c: Case, rounds: seq<Round>, n: nat)
    requires FairRounds(c, rounds) && DistinctKeys(c.network) && n <= |rounds|
    ensures Independent(c.network, c.custodians, Witnesses(rounds[..n]))
  {
    if n > 0 {
      RoundsIndependent(c, rounds, n - 1);
      assert rounds[..n][..n - 1] == rounds[..n - 1];
      var before, r := rounds[..n - 1], rounds[n - 1];
      assert FairPick(c.network, c.scenario.witnessCount, Excluded(c, before), r.witnesses);
      IndependentConcat(c.network, c.custodians, Witnesses(before), r.witnesses, Excluded(c, before));
    }
  }

  /** Sums of witnesses: each has one region and one operator, and is honest or not. */
  ghost predicate SumsBounded(sums: Sums, bound: nat) {
    && sums.honest <= sums.probes <= bound
    && sums.regions <= sums.probes && sums.operators <= sums.probes
  }

  lemma PlusBounded(sums: Sums, w: seq<Relay>, bound: nat, count: nat)
    requires SumsBounded(sums, bound) && |w| <= count
    ensures SumsBounded(sums.Plus(w), bound + count)
  {
    CountsBounded(w);
  }

  lemma OneMoreRound(count: nat, k: nat)
    ensures count * (k + 1) == count * k + count
  {
  }

  ghost predicate RoundsWithin(rounds: seq<Round>, count: nat) {
    forall r | r in rounds :: |r.witnesses| <= count
  }

  lemma AreWithin(c: Case, rounds: seq<Round>)
    requires FairRounds(c, rounds)
    ensures RoundsWithin(rounds, c.scenario.witnessCount)
  {
    forall r | r in rounds ensures |r.witnesses| <= c.scenario.witnessCount {
      var i :| 0 <= i < |rounds| && rounds[i] == r;
      assert FairPick(c.network, c.scenario.witnessCount, Excluded(c, rounds[..i]), rounds[i].witnesses);
    }
  }

  /** No more probes than witnesses times rounds. */
  lemma {:induction false} RoundsBounded(rounds: seq<Round>, count: nat)
    requires RoundsWithin(rounds, count)
    ensures SumsBounded(SumsOf(rounds), count * |rounds|)
  {
    if rounds != [] {
      var before, r := rounds[..|rounds| - 1], rounds[|rounds| - 1];
      RoundsBounded(before, count);
      OneMoreRound(count, |before|);
      assert r in rounds;
      PlusBounded(SumsOf(before), r.witnesses, count * |before|, count);
    }
  }

  lemma {:induction false} SumsCount(rounds: seq<Round>)
    ensures SumsOf(rounds).probes == |Witnesses(rounds)| && SumsOf(rounds).honest == |Honest(Witnesses(rounds))|
  {
    if rounds != [] {
      var before, r := rounds[..|rounds| - 1], rounds[|rounds| - 1];
      SumsCount(before);
      HonestConcat(Witnesses(before), r.witnesses);
    }
  }

  lemma {:induction false} CountsBounded(relays: seq<Relay>)
    ensures RegionCount(relays) <= |relays| && OperatorCount(relays) <= |relays|
  {
    if relays == [] {
      assert (set r | r in relays :: r.region) == {} && (set r | r in relays :: r.operator) == {};
    } else {
      var front, last := relays[..|relays| - 1], relays[|relays| - 1];
      CountsBounded(front);
      assert relays == front + [last];
      Quorum.KeysSnoc(front, last);
      assert RegionCount(relays) == |Quorum.Regions(relays)| && OperatorCount(relays) == |Quorum.Operators(relays)|;
    }
  }

  lemma HitIsHonest(c: Case, r: Round, stream: Stream)
    requires r.Hit(c, stream)
    ensures Honest(r.witnesses) != []
  {
    TimesNothing(|c.violators|);
  }

  lemma TimesNothing(n: nat)
    ensures n * 0 == 0
  {
  }

  /** Over all rounds no custodian witnesses and nobody witnesses twice, there are no more probes than announced,
      and a detection has an honest witness behind it. */
  lemma WitnessesSound(c: Case, rounds: seq<Round>, detected: bool, pick: Pick, stream: Stream, pos: nat)
    requires Witnessed(c, rounds, detected, pick, stream, pos) && Fair(pick, c.network, c.scenario)
    ensures DistinctKeys(c.network) ==> Independent(c.network, c.custodians, Witnesses(rounds))
    ensures SumsBounded(SumsOf(rounds), c.scenario.MaxWitnessProbes()) && |Witnesses(rounds)| <= c.scenario.MaxWitnessProbes()
    ensures c.violators != [] && detected ==> SumsOf(rounds).honest >= 1
  {
    AreFair(c, rounds, pick, pos);
    if DistinctKeys(c.network) {
      RoundsIndependent(c, rounds, |rounds|);
      assert rounds[..|rounds|] == rounds;
    }
    AreWithin(c, rounds);
    RoundsBounded(rounds, c.scenario.witnessCount);
    SumsCount(rounds);
    FewerRounds(c.scenario.witnessCount, |rounds|, c.scenario.Rounds());
    if c.violators != [] && detected && c.scenario.witnessCount > 0 {
      HitIsHonest(c, rounds[|rounds| - 1], stream);
    }
  }

  lemma FewerRounds(count: nat, k: nat, n: nat)
    requires k <= n
    ensures count * k <= count * n
  {
    assert count * n == count * k + count * (n - k);
    assert count * (n - k) >= 0;
  }

  // ---------------------------------------------------------------- a whole scenario

  /** What one iteration came to. */
  datatype Iteration = Iteration(
    network: seq<Relay>,
    custodians: seq<Relay>,
    receipts: seq<Relay>,
    served: bool,
    violators: seq<Relay>,
    detected: bool,
    rounds: seq<Round>)
  {
    predicate Commits(scenario: Scenario) {
      |receipts| >= scenario.receiptQuorum
    }

    predicate Violates(scenario: Scenario) {
      Commits(scenario) && violators != []
    }

    ghost function TheCase(scenario: Scenario, config: Config): Case {
      Case(network, custodians, violators, scenario, config)
    }
  }

  /** The seed of iteration i: hash32(`${seed}:${name}:${i}`). */
  function SeedOf(i: nat, scenario: Scenario, config: Config): int {
    Fnv.Hash32(config.seed + [COLON] + scenario.name + [COLON] + NatText(i))
  }

  /** The network and the custodians are what the stream gives first, up to position `pos`. */
  ghost predicate IsSetUp(it: Iteration, scenario: Scenario, config: Config, stream: Stream, pos: nat)
    requires config.Valid()
  {
    exists malicious: set<int>, drafts: seq<Draft>, made: nat ::
      && IsNetwork(it.network, malicious, drafts, stream, 0, made, config)
      && Drawn(it.custodians, pos) == PickDrawn(it.network, scenario.custodyCount, scenario.selection, {}, stream, made)
  }

  /** Then come the receipts and, if they are enough, who serves, who goes on serving, and the witness rounds. */
  ghost predicate IsOutcome(it: Iteration, scenario: Scenario, config: Config, pick: Pick, stream: Stream, pos: nat) {
    && it.receipts == Flipped(it.custodians, Anchoring(config.rd), stream, pos)
    && IsSettled(it, scenario, config, pick, stream, pos + |it.custodians|)
  }

  ghost predicate IsSettled(it: Iteration, scenario: Scenario, config: Config, pick: Pick, stream: Stream, pos: nat) {
    && (!it.Commits(scenario) ==> !it.served && it.violators == [] && it.detected && it.rounds == [])
    && (it.Commits(scenario) ==> IsCommitted(it, scenario, config, pick, stream, pos))
  }

  function Expired(config: Config): Flip {
    Serving(config.maliciousContinuesServingRate, config.honestBugContinuesServingRate)
  }

  /** `it` is what a stream makes of the scenario. */
  ghost predicate IsRun(it: Iteration, scenario: Scenario, config: Config, stream: Stream)
    requires config.Valid()
  {
    exists pos: nat ::
      && IsSetUp(it, scenario, config, stream, pos)
      && IsOutcome(it, scenario, config, WitnessPick(it.network, scenario, stream), stream, pos)
  }

  /** `it` is iteration i of the scenario. */
  ghost predicate IsIteration(it: Iteration, i: nat, scenario: Scenario, config: Config)
    requires config.Valid()
  {
    IsRun(it, scenario, config, Shuffling.StreamOf(SeedOf(i, scenario, config)))
  }

  /** Receipts come from custodians and violators from receipts, a detection needs an honest witness, and the
      witnesses of all rounds are independent of the custodians and of each other. */
  ghost predicate Sound(it: Iteration, scenario: Scenario) {
    && Witnessing(it, scenario)
    && |it.custodians| <= scenario.custodyCount
    && (forall r | r in it.custodians :: r in it.network)
    && (forall r | r in it.receipts :: r in it.custodians)
    && (forall r | r in it.violators :: r in it.receipts)
    && (it.served ==> scenario.readThreshold <= |it.receipts|)
  }

  ghost predicate Witnessing(it: Iteration, scenario: Scenario) {
    && SumsBounded(SumsOf(it.rounds), scenario.MaxWitnessProbes())
    && (!it.Violates(scenario) ==> it.rounds == [])
    && (it.Violates(scenario) && it.detected ==> SumsOf(it.rounds).honest >= 1)
    && (DistinctKeys(it.network) ==> Independent(it.network, it.custodians, Witnesses(it.rounds)))
  }

  lemma OutcomeWitnessing(it: Iteration, scenario: Scenario, config: Config, pick: Pick, stream: Stream, pos: nat)
    requires IsOutcome(it, scenario, config, pick, stream, pos) && Fair(pick, it.network, scenario)
    ensures Witnessing(it, scenario)
  {
    if it.Commits(scenario) {
      var serving := ServingDrawn(it.receipts, config.maliciousCensorRate, stream, pos + |it.custodians|);
      WitnessesSound(it.TheCase(scenario, config), it.rounds, it.detected, pick, stream, serving.pos + |it.receipts|);
    }
  }

  lemma SettledMembers(it: Iteration, scenario: Scenario, config: Config, pick: Pick, stream: Stream, pos: nat)
    requires IsSettled(it, scenario, config, pick, stream, pos)
    ensures forall r | r in it.violators :: r in it.receipts
    ensures it.served ==> scenario.readThreshold <= |it.receipts|
  {
    if it.Commits(scenario) {
      var serving := ServingDrawn(it.receipts, config.maliciousCensorRate, stream, pos);
      FlippedMembers(it.receipts, Expired(config), stream, serving.pos);
    }
  }

  lemma OutcomeMembers(it: Iteration, scenario: Scenario, config: Config, pick: Pick, stream: Stream, pos: nat)
    requires IsOutcome(it, scenario, config, pick, stream, pos)
    ensures forall r | r in it.receipts :: r in it.custodians
    ensures forall r | r in it.violators :: r in it.receipts
    ensures it.served ==> scenario.readThreshold <= |it.receipts|
  {
    FlippedMembers(it.custodians, Anchoring(config.rd), stream, pos);
    SettledMembers(it, scenario, config, pick, stream, pos + |it.custodians|);
  }

  lemma SetUpSound(it: Iteration, scenario: Scenario, config: Config, stream: Stream, pos: nat)
    requires config.Valid() && IsSetUp(it, scenario, config, stream, pos)
    ensures |it.network| == config.relayCount && (config.relayCount <= TWO32 ==> DistinctKeys(it.network))
    ensures |it.custodians| <= scenario.custodyCount && forall r | r in it.custodians :: r in it.network
  {
    var malicious: set<int>, drafts: seq<Draft>, made: nat :|
      && IsNetwork(it.network, malicious, drafts, stream, 0, made, config)
      && Drawn(it.custodians, pos) == PickDrawn(it.network, scenario.custodyCount, scenario.selection, {}, stream, made);
    NetworkKeys(it.network, malicious, drafts, stream, 0, made, config);
    PickSound(it.network, scenario.custodyCount, scenario.selection, {}, stream, made);
  }

  lemma RunSound(it: Iteration, scenario: Scenario, config: Config, stream: Stream)
    requires config.Valid() && IsRun(it, scenario, config, stream)
    ensures Sound(it, scenario)
    ensures config.relayCount <= TWO32 ==> Independent(it.network, it.custodians, Witnesses(it.rounds))
  {
    var pick := WitnessPick(it.network, scenario, stream);
    var pos: nat :| IsSetUp(it, scenario, config, stream, pos) && IsOutcome(it, scenario, config, pick, stream, pos);
    SetUpSound(it, scenario, config, stream, pos);
    WitnessPickFair(it.network, scenario, stream);
    OutcomeWitnessing(it, scenario, config, pick, stream, pos);
    OutcomeMembers(it, scenario, config, pick, stream, pos);
  }

  /** Every iteration is sound, and up to 2^32 relays its keys are distinct, so its witnesses are independent. */
  lemma IterationSound(it: Iteration, i: nat, scenario: Scenario, config: Config)
    requires config.Valid() && IsIteration(it, i, scenario, config)
    ensures Sound(it, scenario)
    ensures config.relayCount <= TWO32 ==> Independent(it.network, it.custodians, Witnesses(it.rounds))
  {
    RunSound(it, scenario, config, Shuffling.StreamOf(SeedOf(i, scenario, config)));
  }

  // ---------------------------------------------------------------- one seed, one iteration

  lemma FollowsUnique(c: Case, before: seq<Round>, q: Round, r: Round, pick: Pick, pos: nat)
    requires Follows(c, before, q, pick, pos) && Follows(c, before, r, pick, pos)
    ensures q == r
  {
  }

  lemma RoundFollows(c: Case, rounds: seq<Round>, i: nat, before: seq<Round>, pick: Pick, pos: nat)
    requires AreRounds(c, rounds, pick, pos) && i < |rounds| && before == rounds[..i]
    ensures Follows(c, before, rounds[i], pick, pos)
    ensures rounds[..i + 1] == before + [rounds[i]]
  {
  }

  lemma {:induction false} RoundsAgree(c: Case, a: seq<Round>, b: seq<Round>, n: nat, pick: Pick, pos: nat)
    requires AreRounds(c, a, pick, pos) && AreRounds(c, b, pick, pos) && n <= |a| && n <= |b|
    ensures a[..n] == b[..n]
  {
    if n > 0 {
      RoundsAgree(c, a, b, n - 1, pick, pos);
      var before := a[..n - 1];
      RoundFollows(c, a, n - 1, before, pick, pos);
      RoundFollows(c, b, n - 1, before, pick, pos);
      FollowsUnique(c, before, a[n - 1], b[n - 1], pick, pos);
    }
  }

  lemma EarlierMissed(c: Case, rounds: seq<Round>, detected: bool, pick: Pick, stream: Stream, pos: nat)
    requires Witnessed(c, rounds, detected, pick, stream, pos)
    ensures forall k | 0 <= k < |rounds| - 1 :: !rounds[k].Hit(c, stream)
  {
    forall k | 0 <= k < |rounds| - 1 ensures !rounds[k].Hit(c, stream) {
      var before := rounds[..|rounds| - 1];
      assert before[k] == rounds[k] && rounds[k] in rounds;
    }
  }

  /** No outcome of the rounds is a proper beginning of another. */
  lemma NotShorter(c: Case, a: seq<Round>, d: bool, b: seq<Round>, e: bool, pick: Pick, stream: Stream, pos: nat)
    requires Witnessed(c, a, d, pick, stream, pos) && Witnessed(c, b, e, pick, stream, pos)
    ensures |a| >= |b|
  {
    EarlierMissed(c, b, e, pick, stream, pos);
    if |a| < |b| {
      RoundsAgree(c, a, b, |a|, pick, pos);
    }
  }

  lemma WitnessedUnique(c: Case, a: seq<Round>, d: bool, b: seq<Round>, e: bool, pick: Pick, stream: Stream, pos: nat)
    requires Witnessed(c, a, d, pick, stream, pos) && Witnessed(c, b, e, pick, stream, pos)
    ensures a == b && d == e
  {
    NotShorter(c, a, d, b, e, pick, stream, pos);
    NotShorter(c, b, e, a, d, pick, stream, pos);
    RoundsAgree(c, a, b, |a|, pick, pos);
    assert a[..|a|] == a && b[..|a|] == b;
    if c.violators != [] && c.scenario.witnessCount > 0 && (d || e) {
      assert a[|a| - 1] in a;
    }
  }

  lemma NetworkUnique(a: seq<Relay>, b: seq<Relay>, drafts: seq<Draft>, config: Config, malicious: set<int>)
    requires config.Valid() && AreRelays(a, drafts, config, malicious) && AreRelays(b, drafts, config, malicious)
    ensures a == b
  {
    assert forall i | 0 <= i < |a| :: a[i] == b[i];
  }

  lemma SetUpUnique(a: Iteration, b: Iteration, scenario: Scenario, config: Config, stream: Stream, p: nat, q: nat)
    requires config.Valid() && IsSetUp(a, scenario, config, stream, p) && IsSetUp(b, scenario, config, stream, q)
    ensures a.network == b.network && a.custodians == b.custodians && p == q
  {
    var malicious: set<int>, drafts: seq<Draft>, made: nat :|
      && IsNetwork(a.network, malicious, drafts, stream, 0, made, config)
      && Drawn(a.custodians, p) == PickDrawn(a.network, scenario.custodyCount, scenario.selection, {}, stream, made);
    var malicious': set<int>, drafts': seq<Draft>, made': nat :|
      && IsNetwork(b.network, malicious', drafts', stream, 0, made', config)
      && Drawn(b.custodians, q) == PickDrawn(b.network, scenario.custodyCount, scenario.selection, {}, stream, made');
    NetworkUnique(a.network, b.network, drafts, config, malicious);
  }

  lemma CommittedUnique(a: Iteration, b: Iteration, scenario: Scenario, config: Config, pick: Pick, stream: Stream, pos: nat)
    requires a.network == b.network && a.custodians == b.custodians && a.receipts == b.receipts
    requires IsCommitted(a, scenario, config, pick, stream, pos) && IsCommitted(b, scenario, config, pick, stream, pos)
    ensures a == b
  {
    var serving := ServingDrawn(a.receipts, config.maliciousCensorRate, stream, pos);
    WitnessedUnique(a.TheCase(scenario, config), a.rounds, a.detected, b.rounds, b.detected, pick, stream,
                    serving.pos + |a.receipts|);
  }

  lemma SettledUnique(a: Iteration, b: Iteration, scenario: Scenario, config: Config, pick: Pick, stream: Stream, pos: nat)
    requires a.network == b.network && a.custodians == b.custodians && a.receipts == b.receipts
    requires IsSettled(a, scenario, config, pick, stream, pos) && IsSettled(b, scenario, config, pick, stream, pos)
    ensures a == b
  {
    if a.Commits(scenario) {
      CommittedUnique(a, b, scenario, config, pick, stream, pos);
    }
  }

  lemma OutcomeUnique(a: Iteration, b: Iteration, scenario: Scenario, config: Config, pick: Pick, stream: Stream, pos: nat)
    requires a.network == b.network && a.custodians == b.custodians
    requires IsOutcome(a, scenario, config, pick, stream, pos) && IsOutcome(b, scenario, config, pick, stream, pos)
    ensures a == b
  {
    SettledUnique(a, b, scenario, config, pick, stream, pos + |a.custodians|);
  }

  lemma RunUnique(a: Iteration, b: Iteration, scenario: Scenario, config: Config, stream: Stream)
    requires config.Valid() && IsRun(a, scenario, config, stream) && IsRun(b, scenario, config, stream)
    ensures a == b
  {
    var p: nat :| IsSetUp(a, scenario, config, stream, p) && IsOutcome(a, scenario, config, WitnessPick(a.network, scenario, stream), stream, p);
    var q: nat :| IsSetUp(b, scenario, config, stream, q) && IsOutcome(b, scenario, config, WitnessPick(b.network, scenario, stream), stream, q);
    SetUpUnique(a, b, scenario, config, stream, p, q);
    OutcomeUnique(a, b, scenario, config, WitnessPick(a.network, scenario, stream), stream, p);
  }

  /** The seed determines everything an iteration is, for every strategy: two iterations of one index are equal,
      and so are two whole simulations of one length. */
  lemma IterationsUnique(a: seq<Iteration>, b: seq<Iteration>, scenario: Scenario, config: Config)
    requires config.Valid() && AreIterations(a, scenario, config) && AreIterations(b, scenario, config) && |a| == |b|
    ensures a == b
  {
    forall i | 0 <= i < |a| ensures a[i] == b[i] {
      IterationUnique(a[i], b[i], i, scenario, config);
    }
  }

  lemma IterationUnique(a: Iteration, b: Iteration, i: nat, scenario: Scenario, config: Config)
    requires config.Valid() && IsIteration(a, i, scenario, config) && IsIteration(b, i, scenario, config)
    ensures a == b
  {
    RunUnique(a, b, scenario, config, Shuffling.StreamOf(SeedOf(i, scenario, config)));
  }

  // ---------------------------------------------------------------- the totals

  function One(b: bool): nat {
    if b then 1 else 0
  }

  /** The counters of the report, as tallies over iterations. */
  datatype Tally = Tally(
    committed: nat,
    available: nat,
    adversaryReconstructs: nat,
    activeServing: nat,
    undetected: nat,
    custodyRegions: nat,
    custodyOperators: nat,
    witnessRegions: nat,
    witnessOperators: nat,
    honestWitnesses: nat,
    witnessProbes: nat)

  const ZERO := Tally(0, 0, 0, 0, 0, 0, 0, 0, 0, 0, 0)

  /** The counters before the witness rounds. */
  function AddCounts(t: Tally, it: Iteration, scenario: Scenario): Tally {
    t.(committed := t.committed + One(it.Commits(scenario)),
       available := t.available + One(it.Commits(scenario) && it.served),
       adversaryReconstructs := t.adversaryReconstructs + One(it.Commits(scenario) && AdversaryCanReconstruct(it.receipts, scenario)),
       activeServing := t.activeServing + One(it.Violates(scenario)),
       undetected := t.undetected + One(it.Violates(scenario) && !it.detected),
       custodyRegions := t.custodyRegions + RegionCount(it.custodians),
       custodyOperators := t.custodyOperators + OperatorCount(it.custodians))
  }

  function Add(t: Tally, it: Iteration, scenario: Scenario): Tally {
    AddSums(AddCounts(t, it, scenario), SumsOf(it.rounds))
  }

  function TallyOf(its: seq<Iteration>, scenario: Scenario): Tally {
    if its == [] then ZERO
    else Add(TallyOf(its[..|its| - 1], scenario), its[|its| - 1], scenario)
  }

  /** How the counters relate after some iterations, however the draws fell. */
  ghost predicate Consistent(t: Tally, scenario: Scenario, iterations: nat) {
    && t.undetected <= t.activeServing <= t.committed <= iterations
    && t.available <= t.committed
    && t.adversaryReconstructs <= t.committed
    && t.honestWitnesses <= t.witnessProbes <= t.activeServing * scenario.MaxWitnessProbes()
    && t.witnessRegions <= t.witnessProbes && t.witnessOperators <= t.witnessProbes
    && t.custodyRegions <= iterations * scenario.custodyCount
    && t.custodyOperators <= iterations * scenario.custodyCount
    && t.activeServing <= t.undetected + t.honestWitnesses
    && (scenario.witnessCount == 0 ==> t.undetected == t.activeServing)
  }

  lemma OneMoreProduct(k: nat, n: nat)
    ensures (k + 1) * n == k * n + n
  {
  }

  lemma ConsistentStep(t: Tally, it: Iteration, scenario: Scenario, n: nat)
    requires Consistent(t, scenario, n) && Sound(it, scenario)
    ensures Consistent(Add(t, it, scenario), scenario, n + 1)
  {
    OneMoreProduct(t.activeServing, scenario.MaxWitnessProbes());
    OneMoreProduct(n, scenario.custodyCount);
    CountsBounded(it.custodians);
    if scenario.witnessCount == 0 {
      NoWitnesses(scenario);
    }
  }

  lemma NoWitnesses(scenario: Scenario)
    requires scenario.witnessCount == 0
    ensures scenario.MaxWitnessProbes() == 0
  {
  }

  ghost predicate AllSound(its: seq<Iteration>, scenario: Scenario) {
    forall i | 0 <= i < |its| :: Sound(its[i], scenario)
  }

  /** `its` are the first iterations of the scenario. */
  ghost predicate AreIterations(its: seq<Iteration>, scenario: Scenario, config: Config)
    requires config.Valid()
  {
    forall i | 0 <= i < |its| :: IsIteration(its[i], i, scenario, config)
  }

  /** For every scenario and any number of sound iterations the counters keep their order. */
  lemma {:induction false} TallyConsistent(its: seq<Iteration>, scenario: Scenario)
    requires AllSound(its, scenario)
    ensures Consistent(TallyOf(its, scenario), scenario, |its|)
  {
    if its != [] {
      TallyConsistent(its[..|its| - 1], scenario);
      ConsistentStep(TallyOf(its[..|its| - 1], scenario), its[|its| - 1], scenario, |its| - 1);
    }
  }

  /** For every scenario, seed and number of iterations: the counters keep their order, and in every iteration
      over at most 2^32 relays the witnesses are independent. */
  lemma ScenarioSound(its: seq<Iteration>, scenario: Scenario, config: Config)
    requires config.Valid() && AreIterations(its, scenario, config)
    ensures Consistent(TallyOf(its, scenario), scenario, |its|)
    ensures config.relayCount <= TWO32 ==>
              forall i | 0 <= i < |its| :: Independent(its[i].network, its[i].custodians, Witnesses(its[i].rounds))
  {
    forall i | 0 <= i < |its|
      ensures Sound(its[i], scenario)
      ensures config.relayCount <= TWO32 ==> Independent(its[i].network, its[i].custodians, Witnesses(its[i].rounds)) {
      IterationSound(its[i], i, scenario, config);
    }
    TallyConsistent(its, scenario);
  }

  lemma OneMoreIteration(its: seq<Iteration>, it: Iteration, scenario: Scenario, config: Config)
    requires config.Valid() && AreIterations(its, scenario, config) && IsIteration(it, |its|, scenario, config)
    ensures AreIterations(its + [it], scenario, config)
  {
    forall i | 0 <= i < |its| + 1 ensures IsIteration((its + [it])[i], i, scenario, config) {
      assert i < |its| ==> (its + [it])[i] == its[i];
    }
  }

  lemma TallySnoc(its: seq<Iteration>, it: Iteration, scenario: Scenario)
    ensures TallyOf(its + [it], scenario) == Add(TallyOf(its, scenario), it, scenario)
  {
    assert (its + [it])[..|its|] == its;
  }

  // ---------------------------------------------------------------- the loop

  /** The generator, network and custodians of iteration i. */
  method SetUp(i: nat, scenario: Scenario, config: Config)
    returns (rng: Rng, network: seq<Relay>, custodians: seq<Relay>)
    requires config.Valid()
    ensures fresh(rng) && rng.Valid() && rng.stream == Shuffling.StreamOf(SeedOf(i, scenario, config))
    ensures IsSetUp(Iteration(network, custodians, [], false, [], true, []), scenario, config, rng.stream, rng.pos)
  {
    var h := Fnv.ComputeHash32(config.seed + [COLON] + scenario.name + [COLON] + NatText(i));
    rng := new Shuffling.Rng(h);
    ghost var malicious, drafts;
    network, malicious, drafts := MakeNetwork(rng, config);
    ghost var made := rng.pos;
    custodians := PickRelays(network, scenario.custodyCount, scenario.selection, rng, {});
    assert IsNetwork(network, malicious, drafts, rng.stream, 0, made, config);
  }

  method RunIteration(i: nat, scenario: Scenario, config: Config, totals: Totals) returns (ghost it: Iteration)
    requires config.Valid()
    modifies totals
    ensures IsIteration(it, i, scenario, config) && totals.Value() == Add(old(totals.Value()), it, scenario)
  {
    var rng, network, custodians := SetUp(i, scenario, config);
    ghost var pos, pick := rng.pos, WitnessPick(network, scenario, rng.stream);
    WitnessPickIs(network, scenario, rng.stream);
    it := Decide(network, custodians, scenario, rng, config, totals, pick);
    SameSetUp(it, Iteration(network, custodians, [], false, [], true, []), scenario, config, rng.stream, pos);
  }

  lemma SameSetUp(it: Iteration, other: Iteration, scenario: Scenario, config: Config, stream: Stream, pos: nat)
    requires config.Valid() && IsSetUp(other, scenario, config, stream, pos)
    requires it.network == other.network && it.custodians == other.custodians
    ensures IsSetUp(it, scenario, config, stream, pos)
  {
  }

  method Decide(network: seq<Relay>, custodians: seq<Relay>, scenario: Scenario, rng: Rng, config: Config, totals: Totals,
                ghost pick: Pick)
    returns (ghost it: Iteration)
    requires rng.Valid() && IsWitnessPick(pick, network, scenario, rng.stream)
    modifies rng, totals
    ensures it.network == network && it.custodians == custodians
    ensures IsOutcome(it, scenario, config, pick, rng.stream, old(rng.pos))
    ensures totals.Value() == Add(old(totals.Value()), it, scenario)
  {
    CountCustodians(custodians, totals);
    ghost var t := totals.Value();
    it := DrawReceipts(network, custodians, scenario, rng, config, totals, pick);
    AddSettledIs(old(totals.Value()), t, it, scenario);
  }

  method DrawReceipts(network: seq<Relay>, custodians: seq<Relay>, scenario: Scenario, rng: Rng, config: Config, totals: Totals,
                      ghost pick: Pick)
    returns (ghost it: Iteration)
    requires rng.Valid() && IsWitnessPick(pick, network, scenario, rng.stream)
    modifies rng, totals
    ensures it.network == network && it.custodians == custodians && (!it.Commits(scenario) ==> it.rounds == [])
    ensures IsOutcome(it, scenario, config, pick, rng.stream, old(rng.pos))
    ensures totals.Value() == AddSettled(old(totals.Value()), it, scenario)
  {
    var receipts := FilterByCoin(custodians, Anchoring(config.rd), rng);
    it := Settle(network, custodians, receipts, scenario, rng, config, totals, pick);
    OutcomeIs(it, scenario, config, pick, rng.stream, old(rng.pos));
  }

  lemma OutcomeIs(it: Iteration, scenario: Scenario, config: Config, pick: Pick, stream: Stream, pos: nat)
    requires it.receipts == Flipped(it.custodians, Anchoring(config.rd), stream, pos)
    requires IsSettled(it, scenario, config, pick, stream, pos + |it.custodians|)
    ensures IsOutcome(it, scenario, config, pick, stream, pos)
  {
  }

  method Settle(network: seq<Relay>, custodians: seq<Relay>, receipts: seq<Relay>, scenario: Scenario,
                rng: Rng, config: Config, totals: Totals, ghost pick: Pick)
    returns (ghost it: Iteration)
    requires rng.Valid() && IsWitnessPick(pick, network, scenario, rng.stream)
    modifies rng, totals
    ensures it.network == network && it.custodians == custodians && it.receipts == receipts
    ensures !it.Commits(scenario) ==> it.rounds == []
    ensures IsSettled(it, scenario, config, pick, rng.stream, old(rng.pos))
    ensures totals.Value() == AddSettled(old(totals.Value()), it, scenario)
  {
    if |receipts| >= scenario.receiptQuorum {
      it := Commit(network, custodians, receipts, scenario, rng, config, totals, pick);
    } else {
      it := Iteration(network, custodians, receipts, false, [], true, []);
    }
  }

  function AddSettled(t: Tally, it: Iteration, scenario: Scenario): Tally {
    if it.Commits(scenario) then AddCommitted(t, it, scenario) else t
  }

  function AddCustodians(t: Tally, custodians: seq<Relay>): Tally {
    t.(custodyRegions := t.custodyRegions + RegionCount(custodians),
       custodyOperators := t.custodyOperators + OperatorCount(custodians))
  }

  method CountCustodians(custodians: seq<Relay>, totals: Totals)
    modifies totals
    ensures totals.Value() == AddCustodians(old(totals.Value()), custodians)
  {
    totals.custodyRegions := totals.custodyRegions + RegionCount(custodians);
    totals.custodyOperators := totals.custodyOperators + OperatorCount(custodians);
  }

  function AddReceipts(t: Tally, served: bool, receipts: seq<Relay>, scenario: Scenario): Tally {
    t.(committed := t.committed + 1,
       available := t.available + One(served),
       adversaryReconstructs := t.adversaryReconstructs + One(AdversaryCanReconstruct(receipts, scenario)))
  }

  method CountReceipts(served: bool, receipts: seq<Relay>, scenario: Scenario, totals: Totals)
    modifies totals
    ensures totals.Value() == AddReceipts(old(totals.Value()), served, receipts, scenario)
  {
    totals.committed := totals.committed + 1;
    if served { totals.available := totals.available + 1; }
    if AdversaryCanReconstruct(receipts, scenario) { totals.adversaryReconstructs := totals.adversaryReconstructs + 1; }
  }

  /** What is added once the receipts are enough. */
  function AddCommitted(t: Tally, it: Iteration, scenario: Scenario): Tally {
    AddJudged(AddReceipts(t, it.served, it.receipts, scenario), it.violators, it.detected, it.rounds)
  }

  function AddJudged(t: Tally, violators: seq<Relay>, detected: bool, rounds: seq<Round>): Tally {
    AddSums(t.(activeServing := t.activeServing + One(violators != []),
               undetected := t.undetected + One(violators != [] && !detected)), SumsOf(rounds))
  }

  lemma AddSettledIs(before: Tally, t: Tally, it: Iteration, scenario: Scenario)
    requires t == AddCustodians(before, it.custodians) && (!it.Commits(scenario) ==> it.rounds == [])
    ensures AddSettled(t, it, scenario) == Add(before, it, scenario)
  {
  }

  /** What the stream gives once the receipts are enough. */
  ghost predicate IsCommitted(it: Iteration, scenario: Scenario, config: Config, pick: Pick, stream: Stream, pos: nat) {
    var serving := ServingDrawn(it.receipts, config.maliciousCensorRate, stream, pos);
    && it.served == (serving.value >= scenario.readThreshold)
    && it.violators == Flipped(it.receipts, Expired(config), stream, serving.pos)
    && Witnessed(it.TheCase(scenario, config), it.rounds, it.detected, pick, stream, serving.pos + |it.receipts|)
  }

  /** An iteration whose receipts reached the quorum. */
  method Commit(network: seq<Relay>, custodians: seq<Relay>, receipts: seq<Relay>, scenario: Scenario,
                rng: Rng, config: Config, totals: Totals, ghost pick: Pick)
    returns (ghost it: Iteration)
    requires rng.Valid() && |receipts| >= scenario.receiptQuorum && IsWitnessPick(pick, network, scenario, rng.stream)
    modifies rng, totals
    ensures it.network == network && it.custodians == custodians && it.receipts == receipts
    ensures IsCommitted(it, scenario, config, pick, rng.stream, old(rng.pos))
    ensures totals.Value() == AddCommitted(old(totals.Value()), it, scenario)
  {
    var serving := CountServing(receipts, rng, config);
    CountReceipts(serving >= scenario.readThreshold, receipts, scenario, totals);
    var violators := FilterByCoin(receipts, Expired(config), rng);
    ghost var detected, rounds;
    detected, rounds := JudgeViolators(network, custodians, violators, scenario, rng, config, totals, pick);
    it := Iteration(network, custodians, receipts, serving >= scenario.readThreshold, violators, detected, rounds);
  }

  /** What happens to a committed iteration once its violators are known. */
  method JudgeViolators(network: seq<Relay>, custodians: seq<Relay>, violators: seq<Relay>, scenario: Scenario,
                        rng: Rng, config: Config, totals: Totals, ghost pick: Pick)
    returns (ghost detected: bool, ghost rounds: seq<Round>)
    requires rng.Valid() && IsWitnessPick(pick, network, scenario, rng.stream)
    modifies rng, totals
    ensures rng.Valid()
    ensures Witnessed(Case(network, custodians, violators, scenario, config), rounds, detected, pick, rng.stream, old(rng.pos))
    ensures totals.Value() == AddJudged(old(totals.Value()), violators, detected, rounds)
  {
    rounds := [];
    if |violators| == 0 { detected := true; return; }
    totals.activeServing := totals.activeServing + 1;
    var found;
    found, rounds := WitnessViolationDetected(network, custodians, violators, scenario, rng, config, totals, pick);
    detected := found;
    if !found {
      totals.undetected := totals.undetected + 1;
    }
  }

  // ---------------------------------------------------------------- the report

  /** Math.round(n * 10000) / 10000 */
  function Round4(rd: real -> real, n: real): real {
    rd((rd(n * 10000.0) + 0.5).Floor as real / 10000.0)
  }

  function Ratio(rd: real -> real, num: nat, den: nat): real
    requires den >= 1
  {
    Round4(rd, rd(num as real / den as real))
  }

  lemma Round4Monotone(rd: real -> real, a: real, b: real)
    requires IsRounding(rd) && a <= b
    ensures Round4(rd, a) <= Round4(rd, b)
  {
    assert rd(a * 10000.0) <= rd(b * 10000.0);
    var x, y := (rd(a * 10000.0) + 0.5).Floor, (rd(b * 10000.0) + 0.5).Floor;
    assert x <= y;
    assert x as real / 10000.0 <= y as real / 10000.0;
  }

  /** A whole average is reported as it is, if it is not astronomical. */
  lemma Round4Whole(rd: real -> real, n: nat)
    requires IsRounding(rd) && n * 10000 <= TWO53
    ensures Round4(rd, n as real) == n as real
  {
    assert n as real * 10000.0 == (n * 10000) as real;
    assert rd((n * 10000) as real) == (n * 10000) as real;
    assert ((n * 10000) as real + 0.5).Floor == n * 10000;
    assert (n * 10000) as real / 10000.0 == n as real;
  }

  lemma QuotientMonotone(a: nat, b: nat, den: nat)
    requires a <= b && den >= 1
    ensures 0.0 <= a as real / den as real <= b as real / den as real
  {
  }

  lemma QuotientBound(a: nat, den: nat, k: nat)
    requires a <= den * k && den >= 1
    ensures a as real / den as real <= k as real
  {
    var d := den as real;
    assert (den * k) as real == d * (k as real);
    assert a as real <= d * (k as real);
  }

  /** Reported rates and averages keep the order of their counters, whatever the rounding of doubles does ... */
  lemma RatioMonotone(rd: real -> real, a: nat, b: nat, den: nat)
    requires IsRounding(rd) && a <= b && den >= 1
    ensures Ratio(rd, a, den) <= Ratio(rd, b, den)
  {
    QuotientMonotone(a, b, den);
    Round4Monotone(rd, rd(a as real / den as real), rd(b as real / den as real));
  }

  /** ... an average of counts up to k stays up to k, as k is printed ... */
  lemma RatioBound(rd: real -> real, a: nat, den: nat, k: nat)
    requires IsRounding(rd) && a <= den * k && den >= 1
    ensures Ratio(rd, a, den) <= Round4(rd, rd(k as real))
  {
    QuotientBound(a, den, k);
    Round4Monotone(rd, rd(a as real / den as real), rd(k as real));
  }

  lemma RateEnds(rd: real -> real)
    requires IsRounding(rd)
    ensures Round4(rd, rd(0.0)) == 0.0 && Round4(rd, rd(1.0)) == 1.0
  {
    assert rd(0.0) == 0.0 && rd(1.0) == 1.0 && rd(10000.0) == 10000.0;
    assert (0.0 + 0.5).Floor == 0 && (10000.0 + 0.5).Floor == 10000;
  }

  lemma RatesOrder(rd: real -> real, x: real, y: real)
    requires IsRounding(rd) && 0.0 <= x <= y <= 1.0
    ensures 0.0 <= Round4(rd, rd(x)) <= Round4(rd, rd(y)) <= 1.0
  {
    RateEnds(rd);
    Round4Monotone(rd, rd(0.0), rd(x));
    Round4Monotone(rd, rd(x), rd(y));
    Round4Monotone(rd, rd(y), rd(1.0));
  }

  /** ... and rates stay within [0, 1]. */
  lemma RatioOrder(rd: real -> real, a: nat, b: nat, den: nat)
    requires IsRounding(rd) && a <= b <= den && den >= 1
    ensures 0.0 <= Ratio(rd, a, den) <= Ratio(rd, b, den) <= 1.0
  {
    QuotientMonotone(a, b, den);
    QuotientBound(b, den, 1);
    RatesOrder(rd, a as real / den as real, b as real / den as real);
  }

  datatype Report = Report(
    commitRate: real,
    availability: real,
    adversaryReconstructs: real,
    activeServing: real,
    undetected: real,
    custodyRegions: real,
    custodyOperators: real,
    witnessRegions: real,
    witnessOperators: real,
    honestWitnesses: real,
    witnessProbes: real,
    maxWitnessProbes: nat)

  /** The averages over committed iterations are 0 without witnesses. */
  function Average(rd: real -> real, scenario: Scenario, num: nat, den: nat): real
    requires den >= 1
  {
    if scenario.witnessCount == 0 then 0.0 else Ratio(rd, num, den)
  }

  function ReportOf(rd: real -> real, t: Tally, scenario: Scenario, iterations: nat): Report
    requires iterations >= 1
  {
    var committed := if t.committed == 0 then 1 else t.committed;
    Report(
      Ratio(rd, t.committed, iterations),
      Ratio(rd, t.available, committed),
      Ratio(rd, t.adversaryReconstructs, committed),
      Ratio(rd, t.activeServing, committed),
      Ratio(rd, t.undetected, committed),
      Ratio(rd, t.custodyRegions, iterations),
      Ratio(rd, t.custodyOperators, iterations),
      Average(rd, scenario, t.witnessRegions, committed),
      Average(rd, scenario, t.witnessOperators, committed),
      Average(rd, scenario, t.honestWitnesses, committed),
      Average(rd, scenario, t.witnessProbes, committed),
      scenario.MaxWitnessProbes())
  }

  predicate IsRate(r: real) {
    0.0 <= r <= 1.0
  }

  /** How the figures of a report relate. */
  ghost predicate Ordered(r: Report, rd: real -> real, scenario: Scenario) {
    && IsRate(r.commitRate) && IsRate(r.availability) && IsRate(r.adversaryReconstructs)
    && 0.0 <= r.undetected <= r.activeServing <= 1.0
    && (scenario.witnessCount == 0 ==> r.undetected == r.activeServing)
    && r.custodyRegions <= Round4(rd, rd(scenario.custodyCount as real))
    && r.custodyOperators <= Round4(rd, rd(scenario.custodyCount as real))
  }

  ghost predicate WitnessesOrdered(r: Report, rd: real -> real, scenario: Scenario) {
    && r.honestWitnesses <= r.witnessProbes
    && r.witnessRegions <= r.witnessProbes
    && r.witnessOperators <= r.witnessProbes
    && (scenario.witnessCount > 0 ==> r.witnessProbes <= Round4(rd, rd(r.maxWitnessProbes as real)))
  }

  lemma RatesOrdered(rd: real -> real, t: Tally, scenario: Scenario, iterations: nat)
    requires IsRounding(rd) && iterations >= 1 && Consistent(t, scenario, iterations)
    ensures Ordered(ReportOf(rd, t, scenario, iterations), rd, scenario)
  {
    var committed := if t.committed == 0 then 1 else t.committed;
    RatioOrder(rd, t.committed, t.committed, iterations);
    RatioOrder(rd, t.available, t.available, committed);
    RatioOrder(rd, t.adversaryReconstructs, t.adversaryReconstructs, committed);
    RatioOrder(rd, t.undetected, t.activeServing, committed);
    RatioBound(rd, t.custodyRegions, iterations, scenario.custodyCount);
    RatioBound(rd, t.custodyOperators, iterations, scenario.custodyCount);
  }

  lemma TimesMonotone(a: nat, b: nat, k: nat)
    requires a <= b
    ensures a * k <= b * k
  {
    FewerRounds(k, a, b);
  }

  lemma ProbesBound(t: Tally, scenario: Scenario, iterations: nat, committed: nat, max: nat)
    requires Consistent(t, scenario, iterations) && t.committed <= committed && max == scenario.MaxWitnessProbes()
    ensures t.witnessProbes <= committed * max
  {
    TimesMonotone(t.activeServing, committed, max);
  }

  lemma AveragesOrdered(rd: real -> real, t: Tally, scenario: Scenario, iterations: nat)
    requires IsRounding(rd) && iterations >= 1 && Consistent(t, scenario, iterations)
    ensures WitnessesOrdered(ReportOf(rd, t, scenario, iterations), rd, scenario)
  {
    var committed := if t.committed == 0 then 1 else t.committed;
    RatioMonotone(rd, t.honestWitnesses, t.witnessProbes, committed);
    RatioMonotone(rd, t.witnessRegions, t.witnessProbes, committed);
    RatioMonotone(rd, t.witnessOperators, t.witnessProbes, committed);
    ProbesBound(t, scenario, iterations, committed, scenario.MaxWitnessProbes());
    RatioBound(rd, t.witnessProbes, committed, scenario.MaxWitnessProbes());
  }

  /** The totals are the tallies of just the iterations that the seeds determine, and the report is made from them. */
  method SimulateScenario(scenario: Scenario, config: Config) returns (report: Report, totals: Totals, ghost its: seq<Iteration>)
    requires config.Valid() && IsRounding(config.rd)
    ensures fresh(totals) && |its| == config.iterations && AreIterations(its, scenario, config)
    ensures totals.Value() == TallyOf(its, scenario) && report == ReportOf(config.rd, totals.Value(), scenario, config.iterations)
    ensures Consistent(totals.Value(), scenario, config.iterations)
    ensures Ordered(report, config.rd, scenario) && WitnessesOrdered(report, config.rd, scenario)
  {
    totals := new Totals();
    its := [];
    for i := 0 to config.iterations
      invariant fresh(totals) && |its| == i && AreIterations(its, scenario, config)
      invariant totals.Value() == TallyOf(its, scenario)
    {
      ghost var it := RunIteration(i, scenario, config, totals);
      OneMoreIteration(its, it, scenario, config);
      TallySnoc(its, it, scenario);
      its := its + [it];
    }
    ScenarioSound(its, scenario, config);
    report := MakeReport(totals, scenario, config, config.rd);
  }

  method MakeReport(totals: Totals, scenario: Scenario, config: Config, rd: real -> real) returns (report: Report)
    requires config.Valid() && IsRounding(rd) && Consistent(totals.Value(), scenario, config.iterations)
    ensures report == ReportOf(rd, totals.Value(), scenario, config.iterations)
    ensures Ordered(report, rd, scenario) && WitnessesOrdered(report, rd, scenario)
  {
    var tally := Tally(
      totals.committed, totals.available, totals.adversaryReconstructs, totals.activeServing, totals.undetected,
      totals.custodyRegions, totals.custodyOperators, totals.witnessRegions, totals.witnessOperators,
      totals.honestWitnesses, totals.witnessProbes);
    report := ReportOf(rd, tally, scenario, config.iterations);
    RatesOrdered(rd, tally, scenario, config.iterations);
    AveragesOrdered(rd, tally, scenario, config.iterations);
  }

  // ---------------------------------------------------------------- what the counters count

  /** The positions where something holds. */
  ghost function Where<T(!new)>(s: seq<T>, p: T -> bool): set<int> {
    set i | 0 <= i < |s| && p(s[i])
  }

  lemma WhereSnoc<T(!new)>(s: seq<T>, x: T, p: T -> bool)
    ensures |Where(s + [x], p)| == |Where(s, p)| + One(p(x))
  {
    var all := s + [x];
    assert forall i | 0 <= i < |s| :: all[i] == s[i];
    if p(x) {
      assert Where(all, p) == Where(s, p) + {|s|};
    } else {
      assert Where(all, p) == Where(s, p);
    }
  }

  lemma WhereNone<T(!new)>(p: T -> bool)
    ensures |Where([], p)| == 0
  {
    assert Where([], p) == {};
  }

  lemma {:induction false} HonestCounts(relays: seq<Relay>)
    ensures |relays| - |Honest(relays)| == |Where(relays, (r: Relay) => r.malicious)|
  {
    if relays == [] {
      WhereNone((r: Relay) => r.malicious);
    } else {
      var front, last := SplitLast(relays);
      HonestCounts(front);
      WhereSnoc(front, last, (r: Relay) => r.malicious);
    }
  }

  lemma {:induction false} HonestMembers(relays: seq<Relay>, r: Relay)
    ensures r in Honest(relays) <==> r in relays && !r.malicious
  {
    if relays != [] {
      var front, last := SplitLast(relays);
      HonestMembers(front, r);
    }
  }

  /** How many of the receipts are malicious, by position. */
  ghost function MaliciousAt(receipts: seq<Relay>): nat {
    |Where(receipts, (r: Relay) => r.malicious)|
  }

  /** One malicious receipt has the whole of a full mirror; shards have to reach the read threshold. */
  ghost predicate Reconstructs(it: Iteration, scenario: Scenario) {
    |it.receipts| >= scenario.receiptQuorum &&
    MaliciousAt(it.receipts) >= if scenario.fullMirror then 1 else scenario.readThreshold
  }

  /** What each counter counts: iterations by what happened in them. */
  ghost predicate Counts(t: Tally, its: seq<Iteration>, scenario: Scenario) {
    var quorum := scenario.receiptQuorum;
    && t.committed == |Where(its, (it: Iteration) => |it.receipts| >= quorum)|
    && t.available == |Where(its, (it: Iteration) => |it.receipts| >= quorum && it.served)|
    && t.adversaryReconstructs == |Where(its, (it: Iteration) => Reconstructs(it, scenario))|
    && t.activeServing == |Where(its, (it: Iteration) => |it.receipts| >= quorum && it.violators != [])|
    && t.undetected == |Where(its, (it: Iteration) => |it.receipts| >= quorum && it.violators != [] && !it.detected)|
  }

  lemma CountsStep(t: Tally, its: seq<Iteration>, it: Iteration, scenario: Scenario)
    requires Counts(t, its, scenario)
    ensures Counts(Add(t, it, scenario), its + [it], scenario)
  {
    var quorum := scenario.receiptQuorum;
    HonestCounts(it.receipts);
    WhereSnoc(its, it, (x: Iteration) => |x.receipts| >= quorum);
    WhereSnoc(its, it, (x: Iteration) => |x.receipts| >= quorum && x.served);
    WhereSnoc(its, it, (x: Iteration) => Reconstructs(x, scenario));
    WhereSnoc(its, it, (x: Iteration) => |x.receipts| >= quorum && x.violators != []);
    WhereSnoc(its, it, (x: Iteration) => |x.receipts| >= quorum && x.violators != [] && !x.detected);
  }

  /** The tallies of a simulation count the iterations where these things happened. */
  lemma {:induction false} TallyCounts(its: seq<Iteration>, scenario: Scenario)
    ensures Counts(TallyOf(its, scenario), its, scenario)
    decreases |its|
  {
    if its == [] {
      var quorum := scenario.receiptQuorum;
      WhereNone((x: Iteration) => |x.receipts| >= quorum);
      WhereNone((x: Iteration) => |x.receipts| >= quorum && x.served);
      WhereNone((x: Iteration) => Reconstructs(x, scenario));
      WhereNone((x: Iteration) => |x.receipts| >= quorum && x.violators != []);
      WhereNone((x: Iteration) => |x.receipts| >= quorum && x.violators != [] && !x.detected);
    } else {
      var front, it := its[..|its| - 1], its[|its| - 1];
      TallyCounts(front, scenario);
      CountsStep(TallyOf(front, scenario), front, it, scenario);
      assert its == front + [it];
    }
  }

  lemma WhereNowhere<T(!new)>(s: seq<T>, p: T -> bool)
    requires forall i | 0 <= i < |s| :: !p(s[i])
    ensures |Where(s, p)| == 0
  {
    assert Where(s, p) == {};
  }

  /** So shards below the threshold never reconstruct ... */
  lemma FewShardsSafe(its: seq<Iteration>, scenario: Scenario)
    requires !scenario.fullMirror && forall i | 0 <= i < |its| :: MaliciousAt(its[i].receipts) < scenario.readThreshold
    ensures TallyOf(its, scenario).adversaryReconstructs == 0
  {
    TallyCounts(its, scenario);
    WhereNowhere(its, (x: Iteration) => Reconstructs(x, scenario));
  }

  /** ... and a mirror that always has a malicious receipt is reconstructed whenever it commits. */
  lemma MirrorsReconstruct(its: seq<Iteration>, scenario: Scenario)
    requires scenario.fullMirror && forall i | 0 <= i < |its| :: MaliciousAt(its[i].receipts) >= 1
    ensures TallyOf(its, scenario).adversaryReconstructs == TallyOf(its, scenario).committed
  {
    TallyCounts(its, scenario);
    var quorum := scenario.receiptQuorum;
    assert Where(its, (x: Iteration) => Reconstructs(x, scenario)) == Where(its, (x: Iteration) => |x.receipts| >= quorum);
  }

  function Total<T>(s: seq<T>, f: T -> nat): nat {
    if s == [] then 0 else Total(s[..|s| - 1], f) + f(s[|s| - 1])
  }

  /** The other counters are sums: over iterations, and over the witnesses of all their rounds. */
  ghost predicate SumsUp(t: Tally, its: seq<Iteration>) {
    && t.custodyRegions == Total(its, (it: Iteration) => |set r | r in it.custodians :: r.region|)
    && t.custodyOperators == Total(its, (it: Iteration) => |set r | r in it.custodians :: r.operator|)
    && t.witnessProbes == Total(its, (it: Iteration) => |Witnesses(it.rounds)|)
    && t.honestWitnesses == Total(its, (it: Iteration) => |Where(Witnesses(it.rounds), (r: Relay) => !r.malicious)|)
    && t.witnessRegions == Total(its, (it: Iteration) => Total(it.rounds, (round: Round) => |set r | r in round.witnesses :: r.region|))
    && t.witnessOperators == Total(its, (it: Iteration) => Total(it.rounds, (round: Round) => |set r | r in round.witnesses :: r.operator|))
  }

  lemma {:induction false} SumsAre(rounds: seq<Round>)
    ensures SumsOf(rounds).regions == Total(rounds, (round: Round) => |set r | r in round.witnesses :: r.region|)
    ensures SumsOf(rounds).operators == Total(rounds, (round: Round) => |set r | r in round.witnesses :: r.operator|)
  {
    if rounds != [] {
      SumsAre(rounds[..|rounds| - 1]);
    }
  }

  lemma {:induction false} HonestAre(relays: seq<Relay>)
    ensures |Honest(relays)| == |Where(relays, (r: Relay) => !r.malicious)|
  {
    if relays == [] {
      WhereNone((r: Relay) => !r.malicious);
    } else {
      var front, last := SplitLast(relays);
      HonestAre(front);
      WhereSnoc(front, last, (r: Relay) => !r.malicious);
    }
  }

  lemma TotalSnoc<T>(s: seq<T>, x: T, f: T -> nat)
    ensures Total(s + [x], f) == Total(s, f) + f(x)
  {
    assert (s + [x])[..|s|] == s;
  }

  /** What one iteration adds. */
  lemma AddAdds(t: Tally, it: Iteration, scenario: Scenario)
    ensures var d := Add(t, it, scenario);
            && d.custodyRegions == t.custodyRegions + |set r | r in it.custodians :: r.region|
            && d.custodyOperators == t.custodyOperators + |set r | r in it.custodians :: r.operator|
            && d.witnessProbes == t.witnessProbes + |Witnesses(it.rounds)|
            && d.honestWitnesses == t.honestWitnesses + |Where(Witnesses(it.rounds), (r: Relay) => !r.malicious)|
            && d.witnessRegions == t.witnessRegions + Total(it.rounds, (round: Round) => |set r | r in round.witnesses :: r.region|)
            && d.witnessOperators == t.witnessOperators + Total(it.rounds, (round: Round) => |set r | r in round.witnesses :: r.operator|)
  {
    SumsAre(it.rounds);
    SumsCount(it.rounds);
    HonestAre(Witnesses(it.rounds));
  }

  lemma SumsStep(t: Tally, its: seq<Iteration>, it: Iteration, scenario: Scenario)
    requires SumsUp(t, its)
    ensures SumsUp(Add(t, it, scenario), its + [it])
  {
    AddAdds(t, it, scenario);
    TotalSnoc(its, it, (x: Iteration) => |set r | r in x.custodians :: r.region|);
    TotalSnoc(its, it, (x: Iteration) => |set r | r in x.custodians :: r.operator|);
    TotalSnoc(its, it, (x: Iteration) => |Witnesses(x.rounds)|);
    TotalSnoc(its, it, (x: Iteration) => |Where(Witnesses(x.rounds), (r: Relay) => !r.malicious)|);
    TotalSnoc(its, it, (x: Iteration) => Total(x.rounds, (round: Round) => |set r | r in round.witnesses :: r.region|));
    TotalSnoc(its, it, (x: Iteration) => Total(x.rounds, (round: Round) => |set r | r in round.witnesses :: r.operator|));
  }

  lemma {:induction false} TallySums(its: seq<Iteration>, scenario: Scenario)
    ensures SumsUp(TallyOf(its, scenario), its)
    decreases |its|
  {
    if its != [] {
      var front, it := its[..|its| - 1], its[|its| - 1];
      TallySums(front, scenario);
      SumsStep(TallyOf(front, scenario), front, it, scenario);
      assert its == front + [it];
    }
  }

  // ---------------------------------------------------------------- what the rates mean

  /** A relay serves when its draw is below its reliability and, if it is malicious, the next one is not below the
      censor rate; the relay after it draws from where this one stopped. */
  lemma ServesIff(r: Relay, censorRate: real, stream: Stream, pos: nat)
    ensures var drawn := ServesDrawn(r, censorRate, stream, pos);
            && (drawn.value <==> (stream(pos) as real / TWO32 as real < r.reliability
                                  && (r.malicious ==> stream(pos + 1) as real / TWO32 as real >= censorRate)))
            && drawn.pos == pos + if r.malicious then 2 else 1
  {
  }

  /** The first round starts where it is told to; a round that found nothing has asked once about every violator through
      every honest witness before the next one starts. */
  lemma RoundStarts(c: Case, rounds: seq<Round>, pick: Pick, pos: nat, i: nat)
    requires AreRounds(c, rounds, pick, pos) && i < |rounds|
    ensures i == 0 ==> rounds[i].start == pos
    ensures i > 0 ==> rounds[i].start == rounds[i - 1].probes + |c.violators| * |Honest(rounds[i - 1].witnesses)|
  {
    assert Follows(c, rounds[..i], rounds[i], pick, pos);
  }

  /** The coin of a relay falls exactly when its draw is below the rate. */
  lemma {:induction false} FlippedIff(relays: seq<Relay>, flip: Flip, stream: Stream, pos: nat, r: Relay)
    ensures r in Flipped(relays, flip, stream, pos) <==>
            exists i :: 0 <= i < |relays| && relays[i] == r && Draw(stream, pos + i) < Rate(flip, r)
  {
    if relays != [] {
      var n := |relays| - 1;
      FlippedIff(relays[..n], flip, stream, pos, r);
      assert forall i | 0 <= i < n :: relays[..n][i] == relays[i];
      if r in Flipped(relays[..n], flip, stream, pos) {
        var i :| 0 <= i < n && relays[..n][i] == r && Draw(stream, pos + i) < Rate(flip, r);
        assert relays[i] == r;
      }
    }
  }

  /** The rate of the malicious is theirs, that of the honest theirs: at 0 none of them goes on serving, at 1 all do. */
  lemma ServingRates(receipts: seq<Relay>, malicious: real, honest: real, stream: Stream, pos: nat, r: Relay)
    requires r in receipts
    ensures var out := Flipped(receipts, Serving(malicious, honest), stream, pos);
            && (r.malicious && malicious <= 0.0 ==> r !in out) && (r.malicious && malicious >= 1.0 ==> r in out)
            && (!r.malicious && honest <= 0.0 ==> r !in out) && (!r.malicious && honest >= 1.0 ==> r in out)
  {
    var flip := Serving(malicious, honest);
    FlippedIff(receipts, flip, stream, pos, r);
    var i :| 0 <= i < |receipts| && receipts[i] == r;
    assert 0.0 <= Draw(stream, pos + i) < 1.0;
  }

  /** With censorship certain only honest receipts serve. */
  lemma {:induction false} CensoredServing(receipts: seq<Relay>, censorRate: real, stream: Stream, pos: nat)
    requires censorRate >= 1.0
    ensures ServingDrawn(receipts, censorRate, stream, pos).value <= |Honest(receipts)|
  {
    if receipts != [] {
      CensoredServing(receipts[..|receipts| - 1], censorRate, stream, pos);
    }
  }

  /** Without censorship and with perfect reliability every receipt serves. */
  lemma {:induction false} AllServe(receipts: seq<Relay>, censorRate: real, stream: Stream, pos: nat)
    requires censorRate <= 0.0 && forall i | 0 <= i < |receipts| :: receipts[i].reliability >= 1.0
    ensures ServingDrawn(receipts, censorRate, stream, pos).value == |receipts|
  {
    if receipts != [] {
      AllServe(receipts[..|receipts| - 1], censorRate, stream, pos);
    }
  }

  /** What rates of 0 and 1 come to in a committed iteration: who goes on serving, and who can be served by. */
  ghost predicate RateEffects(it: Iteration, scenario: Scenario, config: Config) {
    && (forall r | r in it.receipts && r.malicious && config.maliciousContinuesServingRate <= 0.0 :: r !in it.violators)
    && (forall r | r in it.receipts && r.malicious && config.maliciousContinuesServingRate >= 1.0 :: r in it.violators)
    && (forall r | r in it.receipts && !r.malicious && config.honestBugContinuesServingRate <= 0.0 :: r !in it.violators)
    && (forall r | r in it.receipts && !r.malicious && config.honestBugContinuesServingRate >= 1.0 :: r in it.violators)
    && (config.maliciousCensorRate >= 1.0 && it.served ==> |Honest(it.receipts)| >= scenario.readThreshold)
    && (config.maliciousCensorRate <= 0.0 && (forall j | 0 <= j < |it.receipts| :: it.receipts[j].reliability >= 1.0) ==>
          (it.served <==> |it.receipts| >= scenario.readThreshold))
  }

  lemma ServedByRate(receipts: seq<Relay>, served: bool, threshold: nat, censorRate: real, stream: Stream, pos: nat)
    requires served == (ServingDrawn(receipts, censorRate, stream, pos).value >= threshold)
    ensures censorRate >= 1.0 && served ==> |Honest(receipts)| >= threshold
    ensures censorRate <= 0.0 && (forall j | 0 <= j < |receipts| :: receipts[j].reliability >= 1.0) ==> (served <==> |receipts| >= threshold)
  {
    if censorRate >= 1.0 {
      CensoredServing(receipts, censorRate, stream, pos);
    } else if censorRate <= 0.0 && forall j | 0 <= j < |receipts| :: receipts[j].reliability >= 1.0 {
      AllServe(receipts, censorRate, stream, pos);
    }
  }

  lemma CommittedRates(it: Iteration, scenario: Scenario, config: Config, pick: Pick, stream: Stream, pos: nat)
    requires IsCommitted(it, scenario, config, pick, stream, pos)
    ensures RateEffects(it, scenario, config)
  {
    var serving := ServingDrawn(it.receipts, config.maliciousCensorRate, stream, pos);
    ServedByRate(it.receipts, it.served, scenario.readThreshold, config.maliciousCensorRate, stream, pos);
    forall r | r in it.receipts
      ensures r.malicious && config.maliciousContinuesServingRate <= 0.0 ==> r !in it.violators
      ensures r.malicious && config.maliciousContinuesServingRate >= 1.0 ==> r in it.violators
      ensures !r.malicious && config.honestBugContinuesServingRate <= 0.0 ==> r !in it.violators
      ensures !r.malicious && config.honestBugContinuesServingRate >= 1.0 ==> r in it.violators {
      ServingRates(it.receipts, config.maliciousContinuesServingRate, config.honestBugContinuesServingRate, stream, serving.pos, r);
    }
  }

  lemma OutcomeRates(it: Iteration, scenario: Scenario, config: Config, pick: Pick, stream: Stream, pos: nat)
    requires IsOutcome(it, scenario, config, pick, stream, pos) && |it.receipts| >= scenario.receiptQuorum
    ensures RateEffects(it, scenario, config)
  {
    CommittedRates(it, scenario, config, pick, stream, pos + |it.custodians|);
  }

  /** So every committed iteration has these effects. */
  lemma IterationRates(it: Iteration, i: nat, scenario: Scenario, config: Config)
    requires config.Valid() && IsIteration(it, i, scenario, config) && |it.receipts| >= scenario.receiptQuorum
    ensures RateEffects(it, scenario, config)
  {
    var stream := Shuffling.StreamOf(SeedOf(i, scenario, config));
    var pick := WitnessPick(it.network, scenario, stream);
    var p: nat :| IsSetUp(it, scenario, config, stream, p) && IsOutcome(it, scenario, config, pick, stream, p);
    OutcomeRates(it, scenario, config, pick, stream, p);
  }

  /** At a detection rate of 0 no violation is detected; at 1 every one is that has an honest witness in some round. */
  lemma DetectedByRate(c: Case, rounds: seq<Round>, detected: bool, pick: Pick, stream: Stream, pos: nat)
    requires Witnessed(c, rounds, detected, pick, stream, pos) && c.violators != []
    ensures c.config.witnessDetectRate <= 0.0 ==> !detected
    ensures c.config.witnessDetectRate >= 1.0 && !detected ==> forall r | r in rounds :: Honest(r.witnesses) == []
  {
    if c.config.witnessDetectRate >= 1.0 && !detected {
      forall r | r in rounds ensures Honest(r.witnesses) == [] {
        CertainHit(c, r, stream);
      }
    }
  }

  lemma CertainHit(c: Case, r: Round, stream: Stream)
    requires c.violators != [] && c.config.witnessDetectRate >= 1.0 && !r.Hit(c, stream)
    ensures Honest(r.witnesses) == []
  {
    assert Draw(stream, r.probes) < 1.0;
    if Honest(r.witnesses) != [] {
      ProductBound(0, |c.violators|, |Honest(r.witnesses)|);
    }
  }

  /** An undetected violation has been through all its rounds: witnessRounds of them, or one if that is 0. */
  lemma UndetectedRounds(c: Case, rounds: seq<Round>, pick: Pick, stream: Stream, pos: nat)
    requires Witnessed(c, rounds, false, pick, stream, pos) && c.scenario.witnessCount > 0
    ensures |rounds| == if c.scenario.witnessRounds == 0 then 1 else c.scenario.witnessRounds
  {
  }

  /** A relay anchors with its reliability, a malicious one with 0.04 more, and none with more than 0.998. */
  lemma KnownRates(r: Relay)
    ensures r.reliability == 0.9 ==> Rate(Anchoring(Exact), r) == if r.malicious then 0.94 else 0.9
    ensures r.reliability == 0.995 ==> Rate(Anchoring(Exact), r) == if r.malicious then 0.998 else 0.995
  {
  }

  /** The seed of an iteration is the hash of seed, name and index. */
  lemma KnownSeed(i: nat, scenario: Scenario, config: Config)
    requires i == 12 && scenario.name == [110] && config.seed == [115]
    ensures SeedOf(i, scenario, config) == Fnv.Hash32(Ascii("s:n:12"))
  {
    assert NatText(i) == [49, 50];
    assert [115] + [COLON] + [110] + [COLON] + [49, 50] == Ascii("s:n:12");
  }

  lemma KnownRounding()
    ensures Round4(Exact, 0.66666) == 0.6667 && Round4(Exact, 0.33333) == 0.3333 && Round4(Exact, 0.00005) == 0.0001
    ensures Ratio(Exact, 1, 3) == 0.3333 && Ratio(Exact, 2, 3) == 0.6667 && Ratio(Exact, 3, 10) == 0.3 && Ratio(Exact, 5, 3) == 1.6667
  {
  }

  /** Ten iterations, three committed: which counter goes into which figure, and over what. */
  lemma KnownReport(scenario: Scenario)
    requires scenario.witnessCount == 4 && scenario.witnessRounds == 2
    ensures ReportOf(Exact, Tally(3, 2, 1, 2, 1, 30, 20, 5, 3, 1, 9), scenario, 10)
         == Report(0.3, 0.6667, 0.3333, 0.6667, 0.3333, 3.0, 2.0, 1.6667, 1.0, 0.3333, 3.0, 8)
  {
    KnownRounding();
    assert Ratio(Exact, 30, 10) == 3.0 && Ratio(Exact, 20, 10) == 2.0 && Ratio(Exact, 3, 3) == 1.0 && Ratio(Exact, 9, 3) == 3.0;
  }

  /** Nothing committed divides by one, and without witnesses their averages are 0. */
  lemma EmptyReport(scenario: Scenario)
    requires scenario.witnessCount == 0
    ensures ReportOf(Exact, ZERO, scenario, 10).witnessProbes == 0.0 && ReportOf(Exact, ZERO, scenario, 10).availability == 0.0
    ensures ReportOf(Exact, ZERO, scenario, 10).maxWitnessProbes == 0
  {
    assert Ratio(Exact, 0, 1) == 0.0;
  }
}
