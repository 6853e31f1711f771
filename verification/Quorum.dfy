/** packages/core/core/quorum-selector.js: ranking relays and the diversity-first greedy selection. */
module Quorum {
  import opened Wrappers
  import opened Texts
  import opened Relays

  // ---------------------------------------------------------------- ranking

  function NormalizedScore(score: real): real {
    if 0.0 <= score <= 1.0 then score else 0.0
  }

  /** A negative latency counts as infinite. */
  predicate Faster(a: int, b: int) {
    a >= 0 && (b < 0 || a < b)
  }

  predicate KeyBefore(a: Text, b: Text) {
    a != b && Leq(a, b)
  }

  /** byScoreDesc(a, b) < 0 */
  predicate RankBefore(a: Relay, b: Relay) {
    var sa, sb := NormalizedScore(a.score), NormalizedScore(b.score);
    sa > sb ||
    (sa == sb && (Faster(a.latencyMs, b.latencyMs) ||
                  (!Faster(b.latencyMs, a.latencyMs) && KeyBefore(a.pubkey, b.pubkey))))
  }

  lemma RankTransitive(a: Relay, b: Relay, c: Relay)
    requires RankBefore(a, b) && RankBefore(b, c)
    ensures RankBefore(a, c)
  {
    if KeyBefore(a.pubkey, b.pubkey) && KeyBefore(b.pubkey, c.pubkey) {
      LeqTransitive(a.pubkey, b.pubkey, c.pubkey);
      LeqTotal(a.pubkey, b.pubkey);
    }
  }

  /** What the ranking says of relays with scores in [0, 1] and known latencies: the better score first, then the lower
      latency, then the key that comes first. */
  lemma RankMeaning(a: Relay, b: Relay)
    requires 0.0 <= a.score <= 1.0 && 0.0 <= b.score <= 1.0 && a.latencyMs >= 0 && b.latencyMs >= 0
    ensures RankBefore(a, b) <==>
            || a.score > b.score
            || (a.score == b.score && a.latencyMs < b.latencyMs)
            || (a.score == b.score && a.latencyMs == b.latencyMs && ComesBefore(a.pubkey, b.pubkey))
  {
    LeqIff(a.pubkey, b.pubkey);
    BeforeOneWay(a.pubkey, b.pubkey);
  }

  /** A score outside [0, 1] counts as 0, an unknown latency comes last. */
  lemma RankOdd(a: Relay, b: Relay)
    requires 0.0 < a.score <= 1.0
    ensures b.score < 0.0 || b.score > 1.0 ==> RankBefore(a, b)
    ensures b.score == a.score && a.latencyMs >= 0 > b.latencyMs ==> RankBefore(a, b)
  {
  }

  // ---------------------------------------------------------------- the greedy selection

  ghost function Regions(relays: seq<Relay>): set<int> {
    set r | r in relays :: r.region
  }

  ghost function Operators(relays: seq<Relay>): set<int> {
    set r | r in relays :: r.operator
  }

  /** How many dimensions, region and failure domain, a relay would add. */
  function Gain(regions: set<int>, operators: set<int>, r: Relay): int {
    (if r.region in regions then 0 else 1) + (if r.operator in operators then 0 else 1)
  }

  /** `q` does not deserve to be picked before `r`. */
  predicate NoBetter(regions: set<int>, operators: set<int>, q: Relay, r: Relay) {
    var gq, gr := Gain(regions, operators, q), Gain(regions, operators, r);
    gq < gr || (gq == gr && !RankBefore(q, r))
  }

  /** `r` adds the most among the relays not yet taken, ties going to the better rank. */
  ghost predicate Best(pool: seq<Relay>, taken: set<Text>, regions: set<int>, operators: set<int>, r: Relay) {
    && r in pool && r.pubkey !in taken
    && forall q | q in pool && q.pubkey !in taken :: NoBetter(regions, operators, q, r)
  }

  /** Every pick is the best one given the picks before it. */
  ghost predicate Greedy(pool: seq<Relay>, selected: seq<Relay>) {
    forall i | 0 <= i < |selected| ::
      Best(pool, Keys(selected[..i]), Regions(selected[..i]), Operators(selected[..i]), selected[i])
  }

  lemma Overtaken(regions: set<int>, operators: set<int>, q: Relay, old_: Relay, r: Relay)
    requires NoBetter(regions, operators, q, old_)
    requires Beats(regions, operators, r, old_)
    ensures NoBetter(regions, operators, q, r)
  {
    if Gain(regions, operators, q) == Gain(regions, operators, r) && RankBefore(q, r) {
      RankTransitive(q, r, old_);
    }
  }

  lemma RankIrreflexive(r: Relay)
    ensures !RankBefore(r, r)
  {
  }

  /** `r` adds more than `best`, or as much with a better rank. */
  predicate Beats(regions: set<int>, operators: set<int>, r: Relay, best: Relay) {
    var gr, gb := Gain(regions, operators, r), Gain(regions, operators, best);
    gr > gb || (gr == gb && RankBefore(r, best))
  }

  /** What scanning the ranked relays comes to. */
  function BestOf(ranked: seq<Relay>, taken: set<Text>, regions: set<int>, operators: set<int>): Option<Relay> {
    if ranked == [] then None
    else
      var best, r := BestOf(ranked[..|ranked| - 1], taken, regions, operators), ranked[|ranked| - 1];
      if r.pubkey !in taken && (best.None? || Beats(regions, operators, r, best.value)) then Some(r) else best
  }

  /** It finds the best one, and nothing only when every key is taken. */
  lemma {:induction false} BestOfSound(ranked: seq<Relay>, taken: set<Text>, regions: set<int>, operators: set<int>)
    ensures var best := BestOf(ranked, taken, regions, operators);
            if best.Some? then Best(ranked, taken, regions, operators, best.value)
            else forall q | q in ranked :: q.pubkey in taken
  {
    if ranked != [] {
      var front, r := ranked[..|ranked| - 1], ranked[|ranked| - 1];
      BestOfSound(front, taken, regions, operators);
      assert ranked == front + [r];
      RankIrreflexive(r);
      BestOfStep(front, r, taken, regions, operators, BestOf(front, taken, regions, operators));
    }
  }

  lemma BestOfStep(front: seq<Relay>, r: Relay, taken: set<Text>, regions: set<int>, operators: set<int>, best: Option<Relay>)
    requires if best.Some? then Best(front, taken, regions, operators, best.value) else forall q | q in front :: q.pubkey in taken
    ensures if r.pubkey !in taken && (best.None? || Beats(regions, operators, r, best.value))
            then Best(front + [r], taken, regions, operators, r)
            else if best.Some? then Best(front + [r], taken, regions, operators, best.value)
            else forall q | q in front + [r] :: q.pubkey in taken
  {
    RankIrreflexive(r);
    if r.pubkey !in taken && best.Some? && Beats(regions, operators, r, best.value) {
      forall q | q in front && q.pubkey !in taken ensures NoBetter(regions, operators, q, r) {
        Overtaken(regions, operators, q, best.value, r);
      }
    }
  }

  /** The inner loop over the ranked relays. */
  method FindBest(ranked: seq<Relay>, taken: set<Text>, regions: set<int>, operators: set<int>) returns (best: Option<Relay>)
    ensures best == BestOf(ranked, taken, regions, operators)
  {
    best := None;
    for i := 0 to |ranked|
      invariant best == BestOf(ranked[..i], taken, regions, operators)
    {
      assert ranked[..i + 1][..i] == ranked[..i];
      var r := ranked[i];
      if r.pubkey !in taken {
        if best.None? {
          best := Some(r);
        } else {
          var gain, bestGain := Gain(regions, operators, r), Gain(regions, operators, best.value);
          if gain > bestGain || (gain == bestGain && RankBefore(r, best.value)) { best := Some(r); }
        }
      }
    }
    assert ranked[..|ranked|] == ranked;
  }

  lemma KeysSnoc(s: seq<Relay>, r: Relay)
    ensures Keys(s + [r]) == Keys(s) + {r.pubkey}
    ensures Regions(s + [r]) == Regions(s) + {r.region}
    ensures Operators(s + [r]) == Operators(s) + {r.operator}
  {
    var t := s + [r];
    assert t[|s|] == r && forall i | 0 <= i < |s| :: t[i] == s[i];
    forall k | k in Keys(s) ensures k in Keys(t) {
      var i :| 0 <= i < |s| && s[i].pubkey == k;
      assert t[i].pubkey == k;
    }
    assert t[|s|].pubkey in Keys(t);
  }

  lemma GreedySnoc(pool: seq<Relay>, selected: seq<Relay>, r: Relay)
    requires Greedy(pool, selected)
    requires Best(pool, Keys(selected), Regions(selected), Operators(selected), r)
    ensures Greedy(pool, selected + [r])
  {
    var t := selected + [r];
    forall i | 0 <= i < |t| ensures Best(pool, Keys(t[..i]), Regions(t[..i]), Operators(t[..i]), t[i]) {
      if i < |selected| {
        assert t[..i] == selected[..i];
      } else {
        assert t[..i] == selected;
      }
    }
  }

  /** What the greedy picks come to once some are made. */
  ghost function SelectedFrom(ranked: seq<Relay>, size: nat, selected: seq<Relay>): seq<Relay>
    decreases size - |selected|
  {
    if |selected| >= size then selected
    else
      match BestOf(ranked, Keys(selected), Regions(selected), Operators(selected))
      case None => selected
      case Some(r) => SelectedFrom(ranked, size, selected + [r])
  }

  /** A selection that is full or has every key. */
  ghost predicate Complete(ranked: seq<Relay>, size: nat, selected: seq<Relay>) {
    |selected| == size || Keys(ranked) <= Keys(selected)
  }

  lemma {:induction false} SelectedSound(ranked: seq<Relay>, size: nat, selected: seq<Relay>)
    requires Greedy(ranked, selected) && |selected| <= size
    ensures var r := SelectedFrom(ranked, size, selected); Greedy(ranked, r) && |r| <= size && Complete(ranked, size, r)
    decreases size - |selected|
  {
    if |selected| < size {
      BestOfSound(ranked, Keys(selected), Regions(selected), Operators(selected));
      match BestOf(ranked, Keys(selected), Regions(selected), Operators(selected))
      case None => AllTaken(ranked, Keys(selected));
      case Some(r) =>
        GreedySnoc(ranked, selected, r);
        SelectedSound(ranked, size, selected + [r]);
    }
  }

  lemma AllTaken(ranked: seq<Relay>, taken: set<Text>)
    requires forall q | q in ranked :: q.pubkey in taken
    ensures Keys(ranked) <= taken
  {
    forall k | k in Keys(ranked) ensures k in taken {
      var i :| 0 <= i < |ranked| && ranked[i].pubkey == k;
      assert ranked[i] in ranked;
    }
  }

  /** selectDiverse: greedy picks until the quorum is full or every key is taken. */
  method SelectDiverse(ranked: seq<Relay>, size: nat) returns (selected: seq<Relay>)
    ensures selected == SelectedFrom(ranked, size, [])
    ensures Greedy(ranked, selected) && |selected| <= size && Complete(ranked, size, selected)
  {
    SelectedSound(ranked, size, []);
    selected := [];
    var taken, regions, operators := {}, {}, {};
    while |selected| < size
      invariant |selected| <= size && SelectedFrom(ranked, size, selected) == SelectedFrom(ranked, size, [])
      invariant taken == Keys(selected) && regions == Regions(selected) && operators == Operators(selected)
    {
      var best := FindBest(ranked, taken, regions, operators);
      if best.None? { return; }
      var r := best.value;
      KeysSnoc(selected, r);
      selected := selected + [r];
      taken := taken + {r.pubkey};
      regions := regions + {r.region};
      operators := operators + {r.operator};
    }
  }

  lemma GreedyDistinct(pool: seq<Relay>, selected: seq<Relay>)
    requires Greedy(pool, selected)
    ensures DistinctKeys(selected) && forall r | r in selected :: r in pool
  {
    forall i, j | 0 <= i < j < |selected| ensures selected[i].pubkey != selected[j].pubkey {
      assert selected[..j][i].pubkey in Keys(selected[..j]);
      assert Best(pool, Keys(selected[..j]), Regions(selected[..j]), Operators(selected[..j]), selected[j]);
    }
    forall r | r in selected ensures r in pool {
      var i :| 0 <= i < |selected| && selected[i] == r;
      assert Best(pool, Keys(selected[..i]), Regions(selected[..i]), Operators(selected[..i]), selected[i]);
    }
  }

  /** Ranks tell relays of different keys apart. */
  lemma RankTotal(a: Relay, b: Relay)
    requires !RankBefore(a, b) && !RankBefore(b, a)
    ensures a.pubkey == b.pubkey
  {
    LeqTotal(a.pubkey, b.pubkey);
  }

  lemma BestUnique(pool: seq<Relay>, taken: set<Text>, regions: set<int>, operators: set<int>, r: Relay, q: Relay)
    requires DistinctKeys(pool) && Best(pool, taken, regions, operators, r) && Best(pool, taken, regions, operators, q)
    ensures r == q
  {
    assert NoBetter(regions, operators, q, r) && NoBetter(regions, operators, r, q);
    RankTotal(r, q);
    var i :| 0 <= i < |pool| && pool[i] == r;
    var j :| 0 <= j < |pool| && pool[j] == q;
  }

  lemma SplitLast(s: seq<Relay>) returns (before: seq<Relay>, r: Relay)
    requires s != []
    ensures s == before + [r]
  {
    before, r := s[..|s| - 1], s[|s| - 1];
  }

  /** There is only one greedy selection of a given size. */
  lemma {:induction false} GreedyUnique(pool: seq<Relay>, a: seq<Relay>, b: seq<Relay>)
    requires DistinctKeys(pool) && Greedy(pool, a) && Greedy(pool, b) && |a| == |b|
    ensures a == b
    decreases |a|
  {
    if a != [] {
      var before, r := SplitLast(a);
      var before', q := SplitLast(b);
      GreedyPrefix(pool, before, r);
      GreedyPrefix(pool, before', q);
      GreedyUnique(pool, before, before');
      BestUnique(pool, Keys(before), Regions(before), Operators(before), r, q);
    }
  }

  /** The first pick is the best ranked relay of the pool: no other has a better score, and none with the same score a
      lower latency. */
  lemma FirstPickIsBest(pool: seq<Relay>, selected: seq<Relay>, q: Relay)
    requires Greedy(pool, selected) && selected != [] && q in pool
    requires forall r | r in pool :: 0.0 <= r.score <= 1.0 && r.latencyMs >= 0
    ensures var p := selected[0];
            p in pool && q.score <= p.score && (q.score == p.score ==> p.latencyMs <= q.latencyMs)
  {
    var p := selected[0];
    assert selected[..0] == [];
    assert Best(pool, Keys([]), Regions([]), Operators([]), p);
    assert Keys([]) == {} && Regions([]) == {} && Operators([]) == {};
    assert NoBetter({}, {}, q, p);
    RankMeaning(q, p);
  }

  // ---------------------------------------------------------------- what the greed buys

  ghost predicate CoversAll(pool: seq<Relay>, selected: seq<Relay>) {
    Regions(pool) <= Regions(selected) && Operators(pool) <= Operators(selected)
  }

  ghost function Dimensions(selected: seq<Relay>): int {
    |Regions(selected)| + |Operators(selected)|
  }

  lemma UncoveredGains(pool: seq<Relay>, before: seq<Relay>, r: Relay)
    requires DistinctKeys(pool) && !CoversAll(pool, before)
    requires forall k | k in before :: k in pool
    requires Best(pool, Keys(before), Regions(before), Operators(before), r)
    ensures Gain(Regions(before), Operators(before), r) >= 1
  {
    var q :| q in pool && (q.region !in Regions(before) || q.operator !in Operators(before));
    forall i | 0 <= i < |before| ensures before[i].pubkey != q.pubkey {
      assert before[i] in before && before[i] != q;
    }
    assert NoBetter(Regions(before), Operators(before), q, r);
  }

  lemma GreedyPrefix(pool: seq<Relay>, before: seq<Relay>, r: Relay)
    requires Greedy(pool, before + [r])
    ensures Greedy(pool, before) && Best(pool, Keys(before), Regions(before), Operators(before), r)
  {
    var t := before + [r];
    assert t[..|before|] == before && t[|before|] == r;
    forall i | 0 <= i < |before| ensures Best(pool, Keys(before[..i]), Regions(before[..i]), Operators(before[..i]), before[i]) {
      assert t[..i] == before[..i] && t[i] == before[i];
    }
  }

  lemma DimensionsSnoc(before: seq<Relay>, r: Relay)
    ensures Dimensions(before + [r]) == Dimensions(before) + Gain(Regions(before), Operators(before), r)
  {
    KeysSnoc(before, r);
    AddOne(Regions(before), r.region);
    AddOne(Operators(before), r.operator);
  }

  lemma AddOne(s: set<int>, x: int)
    ensures |s + {x}| == |s| + if x in s then 0 else 1
  {
    if x in s {
      assert s + {x} == s;
    }
  }

  lemma CoverageGrows(pool: seq<Relay>, before: seq<Relay>, r: Relay)
    requires CoversAll(pool, before)
    ensures CoversAll(pool, before + [r])
  {
    KeysSnoc(before, r);
  }

  lemma FirstPick(r: Relay)
    ensures Dimensions([r]) == 2
  {
    assert Regions([r]) == {r.region} && Operators([r]) == {r.operator};
  }

  lemma DiversityStep(pool: seq<Relay>, before: seq<Relay>, r: Relay)
    requires DistinctKeys(pool) && Greedy(pool, before + [r]) && before != []
    requires CoversAll(pool, before) || Dimensions(before) >= |before| + 1
    ensures CoversAll(pool, before + [r]) || Dimensions(before + [r]) >= |before| + 2
  {
    GreedyPrefix(pool, before, r);
    if CoversAll(pool, before) {
      CoverageGrows(pool, before, r);
    } else {
      GreedyDistinct(pool, before);
      UncoveredGains(pool, before, r);
      DimensionsSnoc(before, r);
    }
  }

  /** Each pick adds a region or an operator nobody before it had, the first adds both,
      for as long as the pool has any to add. */
  lemma {:induction false} DiversityGuarantee(pool: seq<Relay>, selected: seq<Relay>)
    requires DistinctKeys(pool) && Greedy(pool, selected) && selected != []
    ensures CoversAll(pool, selected) || Dimensions(selected) >= |selected| + 1
  {
    var before, r := selected[..|selected| - 1], selected[|selected| - 1];
    assert selected == before + [r];
    if before == [] {
      FirstPick(r);
      assert selected == [r];
    } else {
      GreedyPrefix(pool, before, r);
      DiversityGuarantee(pool, before);
      DiversityStep(pool, before, r);
    }
  }
}
