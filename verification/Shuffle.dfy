/** scripts/simulate-blind-atomic-custody.js: Rng and its Fisher-Yates shuffle. */
module Shuffling {
  import opened JsNumbers
  import opened Mulberry

  // ---------------------------------------------------------------- the shuffle as a function of its draws

  /** One draw per position: the draw for position i lies in 0..i. */
  ghost predicate ValidDraws(draws: seq<nat>) {
    forall i | 0 <= i < |draws| :: draws[i] <= i
  }

  ghost predicate Distinct<T>(s: seq<T>) {
    forall i, j | 0 <= i < j < |s| :: s[i] != s[j]
  }

  /** What is left in front of position n once positions n and j are swapped. */
  function Rest<T>(s: seq<T>, j: nat): (r: seq<T>)
    requires j < |s|
    ensures |r| == |s| - 1
  {
    var n := |s| - 1;
    if j == n then s[..n] else s[..n][j := s[n]]
  }

  function Shuffled<T>(items: seq<T>, draws: seq<nat>): (r: seq<T>)
    requires |draws| == |items| && ValidDraws(draws)
    ensures |r| == |items|
    decreases |items|
  {
    if items == [] then []
    else
      var n := |items| - 1;
      Shuffled(Rest(items, draws[n]), draws[..n]) + [items[draws[n]]]
  }

  /** A position of x. */
  ghost function Find<T>(s: seq<T>, x: T): (i: nat)
    requires x in s
    ensures i < |s| && s[i] == x
  {
    var i :| 0 <= i < |s| && s[i] == x;
    i
  }

  /** The draws that turn `items` into `target`. */
  ghost function DrawsFor<T>(items: seq<T>, target: seq<T>): (draws: seq<nat>)
    requires multiset(items) == multiset(target)
    ensures |draws| == |items| == |target|
    decreases |items|
  {
    SameLength(items, target);
    if items == [] then []
    else
      var n := |items| - 1;
      LastIsIn(items, target);
      var j := Find(items, target[n]);
      RestsAgree(items, target, j);
      DrawsFor(Rest(items, j), target[..n]) + [j]
  }

  lemma SameLength<T>(a: seq<T>, b: seq<T>)
    requires multiset(a) == multiset(b)
    ensures |a| == |b|
  {
    assert |a| == |multiset(a)| == |multiset(b)| == |b|;
  }

  lemma LastIsIn<T>(items: seq<T>, target: seq<T>)
    requires multiset(items) == multiset(target) && target != []
    ensures target[|target| - 1] in items
  {
    assert target[|target| - 1] in multiset(target);
  }

  lemma LastMultiset<T>(s: seq<T>)
    requires s != []
    ensures multiset(s) == multiset(s[..|s| - 1]) + multiset{s[|s| - 1]}
  {
    assert s == s[..|s| - 1] + [s[|s| - 1]];
  }

  lemma RestMultiset<T>(s: seq<T>, j: nat)
    requires j < |s|
    ensures multiset(s) == multiset(Rest(s, j)) + multiset{s[j]}
  {
    LastMultiset(s);
  }

  lemma RestsAgree<T>(items: seq<T>, target: seq<T>, j: nat)
    requires multiset(items) == multiset(target) && target != []
    requires j < |items| && items[j] == target[|target| - 1]
    ensures multiset(Rest(items, j)) == multiset(target[..|target| - 1])
  {
    var x := items[j];
    RestMultiset(items, j);
    LastMultiset(target);
    assert multiset(Rest(items, j)) == multiset(items) - multiset{x};
    assert multiset(target[..|target| - 1]) == multiset(target) - multiset{x};
  }

  /** Shuffling keeps the multiset, whatever is drawn. */
  lemma {:induction false} ShuffledMultiset<T>(items: seq<T>, draws: seq<nat>)
    requires |draws| == |items| && ValidDraws(draws)
    ensures multiset(Shuffled(items, draws)) == multiset(items)
    decreases |items|
  {
    if items != [] {
      var n := |items| - 1;
      ShuffledMultiset(Rest(items, draws[n]), draws[..n]);
      RestMultiset(items, draws[n]);
    }
  }

  lemma RestDistinct<T>(s: seq<T>, j: nat)
    requires j < |s| && Distinct(s)
    ensures Distinct(Rest(s, j))
  {
  }

  lemma FindDistinct<T>(s: seq<T>, j: nat)
    requires j < |s| && Distinct(s)
    ensures Find(s, s[j]) == j
  {
  }

  /** Every arrangement of the items is reached by some draws ... */
  lemma {:induction false} EveryArrangementReached<T>(items: seq<T>, target: seq<T>)
    requires multiset(items) == multiset(target)
    ensures ValidDraws(DrawsFor(items, target))
    ensures Shuffled(items, DrawsFor(items, target)) == target
    decreases |items|
  {
    SameLength(items, target);
    if items != [] {
      var j, front := Peel(items, target);
      EveryArrangementReached(Rest(items, j), front);
      ArrangementStep(items, front, j);
    } else {
      assert target == [];
    }
  }

  lemma Peel<T>(items: seq<T>, target: seq<T>) returns (j: nat, front: seq<T>)
    requires multiset(items) == multiset(target) && items != []
    ensures j < |items| && Find(items, items[j]) == j
    ensures target == front + [items[j]] && multiset(Rest(items, j)) == multiset(front)
  {
    SameLength(items, target);
    LastIsIn(items, target);
    j := Find(items, target[|target| - 1]);
    front := target[..|target| - 1];
    RestsAgree(items, target, j);
  }

  lemma ArrangementStep<T>(items: seq<T>, front: seq<T>, j: nat)
    requires j < |items| && Find(items, items[j]) == j && multiset(Rest(items, j)) == multiset(front)
    requires ValidDraws(DrawsFor(Rest(items, j), front)) && Shuffled(Rest(items, j), DrawsFor(Rest(items, j), front)) == front
    ensures multiset(items) == multiset(front + [items[j]])
    ensures ValidDraws(DrawsFor(items, front + [items[j]]))
    ensures Shuffled(items, DrawsFor(items, front + [items[j]])) == front + [items[j]]
  {
    RestMultiset(items, j);
    DrawsForSnoc(items, front, j);
    ShuffledSnoc(items, DrawsFor(Rest(items, j), front), j);
  }

  lemma ShuffledSnoc<T>(items: seq<T>, front: seq<nat>, j: nat)
    requires |items| == |front| + 1 && ValidDraws(front) && j < |items|
    ensures ValidDraws(front + [j])
    ensures Shuffled(items, front + [j]) == Shuffled(Rest(items, j), front) + [items[j]]
  {
    assert (front + [j])[..|front|] == front;
  }

  /** ... and, for distinct items, by only one vector of draws: the shuffle is a bijection. */
  lemma {:induction false} DrawsRecovered<T>(items: seq<T>, draws: seq<nat>)
    requires |draws| == |items| && ValidDraws(draws) && Distinct(items)
    ensures multiset(items) == multiset(Shuffled(items, draws))
    ensures DrawsFor(items, Shuffled(items, draws)) == draws
    decreases |items|
  {
    ShuffledMultiset(items, draws);
    if items != [] {
      var n := |items| - 1;
      var j, front := draws[n], draws[..n];
      assert draws == front + [j];
      ShuffledSnoc(items, front, j);
      FindDistinct(items, j);
      RestDistinct(items, j);
      DrawsRecovered(Rest(items, j), front);
      DrawsForSnoc(items, Shuffled(Rest(items, j), front), j);
    }
  }

  lemma DrawsForSnoc<T>(items: seq<T>, front: seq<T>, j: nat)
    requires j < |items| && Find(items, items[j]) == j && multiset(Rest(items, j)) == multiset(front)
    requires multiset(items) == multiset(front + [items[j]])
    ensures DrawsFor(items, front + [items[j]]) == DrawsFor(Rest(items, j), front) + [j]
  {
    var target := front + [items[j]];
    SameLength(items, target);
    assert target[..|target| - 1] == front;
  }

  /** Exactly one vector of draws leads to each arrangement of distinct items. */
  lemma ExactlyOneVector<T>(items: seq<T>, target: seq<T>, draws: seq<nat>)
    requires Distinct(items) && multiset(items) == multiset(target)
    requires |draws| == |items| && ValidDraws(draws)
    ensures Shuffled(items, draws) == target <==> draws == DrawsFor(items, target)
  {
    EveryArrangementReached(items, target);
    DrawsRecovered(items, draws);
  }

  // ---------------------------------------------------------------- the generator object

  type Word = n: int | 0 <= n < TWO32

  function NextState(state: nat): nat {
    ToDouble(state + INCREMENT)
  }

  function StateAhead(state: nat, k: nat): nat
    decreases k
  {
    if k == 0 then NextState(state) else StateAhead(NextState(state), k - 1)
  }

  /** The numerator, over 2^32, of the draw that a generator in `state` makes after k others. */
  function DrawAhead(state: nat, k: nat): Word {
    Mix(StateAhead(state, k))
  }

  /** All draws from a seed. */
  function StreamOf(seed: int): nat -> Word {
    (k: nat) => DrawAhead(ToUint32(seed), k)
  }

  lemma UnboundedStep(seed: int, i: nat)
    ensures UnboundedState(seed, i + 1) == NextState(UnboundedState(seed, i))
  {
  }

  lemma {:induction false} StateAheadIs(seed: int, i: nat, k: nat)
    ensures StateAhead(UnboundedState(seed, i), k) == UnboundedState(seed, i + 1 + k)
    decreases k
  {
    UnboundedStep(seed, i);
    if k > 0 {
      StateAheadIs(seed, i + 1, k - 1);
      assert i + 1 + 1 + (k - 1) == i + 1 + k;
    }
  }

  /** The stream of a seed is the unbounded generator's. */
  lemma StreamIs(seed: int, k: nat)
    ensures StreamOf(seed)(k) == Mix(UnboundedState(seed, k + 1))
  {
    StateAheadIs(seed, 0, k);
  }

  /** What is ahead in the stream is what the state will draw. */
  ghost predicate InStep(stream: nat -> Word, pos: nat, state: nat) {
    forall k: nat :: stream(pos + k) == DrawAhead(state, k)
  }

  lemma InStepNext(stream: nat -> Word, pos: nat, state: nat)
    requires InStep(stream, pos, state)
    ensures InStep(stream, pos + 1, NextState(state)) && Mix(NextState(state)) == stream(pos)
  {
    assert stream(pos + 0) == DrawAhead(state, 0);
    forall k: nat ensures stream(pos + 1 + k) == DrawAhead(NextState(state), k) {
      assert stream(pos + (k + 1)) == DrawAhead(state, k + 1);
    }
  }

  /** The integer below max that a draw gives. */
  function DrawBelow(u: Word, max: nat): (j: nat)
    requires max >= 1
    ensures j < max
  {
    IntInRange(u, max);
    IntBelow(u, max)
  }

  /** Up to 2^21 the draw is floor(u * max / 2^32) exactly, and beyond it that of the rounded product. */
  lemma DrawBelowIs(u: Word, max: nat, j: nat)
    requires max >= 1 && j == DrawBelow(u, max)
    ensures TWO32 * j <= ToDouble(u * max) < TWO32 * (j + 1)
    ensures max <= 0x20_0000 ==> TWO32 * j <= u * max < TWO32 * (j + 1)
  {
    if max <= 0x20_0000 {
      BelowRange(u, max);
      ToDoubleExact(u * max);
    }
  }

  lemma ThreeShuffled<T>(items: seq<T>, i: nat, j: nat)
    requires |items| == 3 && i < 2 && j < 3
    ensures var rest := Rest(items, j);
            Shuffled(items, [0, i, j]) == (if i == 1 then [rest[0], rest[1]] else [rest[1], rest[0]]) + [items[j]]
  {
    var rest, draws := Rest(items, j), [0, i, j];
    assert draws[..2] == [0, i];
    assert rest == [rest[0], rest[1]];
    TwoShuffled(rest[0], rest[1]);
    assert i == 0 ==> draws[..2] == [0, 0];
    assert i == 1 ==> draws[..2] == [0, 1];
  }

  /** Three items: the draw for the last position comes first, then that for the one before. */
  lemma KnownShuffles<T>(a: T, b: T, c: T)
    ensures Shuffled([a, b, c], [0, 1, 0]) == [c, b, a]
    ensures Shuffled([a, b, c], [0, 0, 2]) == [b, a, c]
    ensures Shuffled([a, b, c], [0, 0, 1]) == [c, a, b]
  {
    ThreeShuffled([a, b, c], 1, 0);
    ThreeShuffled([a, b, c], 0, 2);
    ThreeShuffled([a, b, c], 0, 1);
  }

  lemma TwoShuffled<T>(a: T, b: T)
    ensures Shuffled([a, b], [0, 1]) == [a, b] && Shuffled([a, b], [0, 0]) == [b, a]
  {
    OneItem([a], [0]);
    OneItem([b], [0]);
    assert [0, 1][..1] == [0] && [0, 0][..1] == [0];
    assert Rest([a, b], 1) == [a] && Rest([a, b], 0) == [b];
  }

  /** The draws a shuffle of n items takes from the stream, last position first. */
  function StreamDraws(stream: nat -> Word, pos: nat, n: nat): (draws: seq<nat>)
    ensures |draws| == n && ValidDraws(draws)
    decreases n
  {
    if n <= 1 then seq(n, i => 0)
    else StreamDraws(stream, pos + 1, n - 1) + [DrawBelow(stream(pos), n)]
  }

  class Rng {
    var state: nat

    // What the generator will ever draw, and how much of it is drawn.
    ghost const stream: nat -> Word
    ghost var pos: nat

    ghost predicate Valid()
      reads this
    {
      InStep(stream, pos, state)
    }

    constructor (seed: int)
      ensures Valid() && stream == StreamOf(seed) && pos == 0
    {
      state := ToUint32(seed);
      stream, pos := StreamOf(seed), 0;
    }

    /** The draw is u / 2^32. */
    method Next() returns (u: Word)
      requires Valid()
      modifies this
      ensures Valid() && u == stream(old(pos)) && pos == old(pos) + 1
    {
      InStepNext(stream, pos, state);
      state := ToDouble(state + INCREMENT);
      pos := pos + 1;
      u := Mix(state);
    }

    method Int(max: nat) returns (n: nat)
      requires Valid() && max >= 1
      modifies this
      ensures Valid() && n == DrawBelow(stream(old(pos)), max) && pos == old(pos) + 1
    {
      var u := Next();
      n := IntBelow(u, max);
    }

    /** One turn of the shuffle loop. */
    method Turn<T>(copy: array<T>, i: nat)
      requires Valid() && 0 < i < copy.Length
      modifies this, copy
      ensures Valid() && pos == old(pos) + 1
      ensures Pending(copy[..], i - 1, stream, pos) == Pending(old(copy[..]), i, stream, old(pos))
    {
      ghost var before := copy[..];
      var j := DrawAndSwap(copy, i);
      PendingStep(before, i, stream, old(pos), j, copy[..]);
    }

    method DrawAndSwap<T>(copy: array<T>, i: nat) returns (j: nat)
      requires Valid() && 0 < i < copy.Length
      modifies this, copy
      ensures Valid() && pos == old(pos) + 1 && j == DrawBelow(stream(old(pos)), i + 1)
      ensures copy[..] == old(copy[..][i := copy[j]][j := copy[i]])
    {
      j := Int(i + 1);
      Swap(copy, i, j);
    }

    method ShuffleInPlace<T>(copy: array<T>)
      requires Valid() && copy.Length > 0
      modifies this, copy
      ensures Valid() && pos == old(pos) + copy.Length - 1
      ensures copy[..] == Shuffled(old(copy[..]), StreamDraws(stream, old(pos), copy.Length))
    {
      var i := copy.Length - 1;
      PendingAtEnds(copy[..], stream, pos);
      while i > 0
        invariant Valid() && 0 <= i < copy.Length && pos == old(pos) + copy.Length - 1 - i
        invariant Pending(copy[..], i, stream, pos) == Pending(old(copy[..]), copy.Length - 1, stream, old(pos))
      {
        Turn(copy, i);
        i := i - 1;
      }
      PendingAtEnds(copy[..], stream, pos);
    }

    /** shuffle(items): the list given is left alone, a fresh copy is permuted. */
    method Shuffle<T>(items: seq<T>) returns (copy: array<T>)
      requires Valid()
      modifies this
      ensures Valid() && pos == old(pos) + if items == [] then 0 else |items| - 1
      ensures fresh(copy) && copy[..] == Shuffled(items, StreamDraws(stream, old(pos), |items|))
    {
      copy := CopyOf(items);
      if copy.Length > 0 {
        ShuffleInPlace(copy);
      }
    }
  }

  method CopyOf<T>(items: seq<T>) returns (copy: array<T>)
    ensures fresh(copy) && copy[..] == items
  {
    copy := new T[|items|](i requires 0 <= i < |items| => items[i]);
  }

  method Swap<T>(a: array<T>, i: nat, j: nat)
    requires i < a.Length && j < a.Length
    modifies a
    ensures a[..] == old(a[..][i := a[j]][j := a[i]])
  {
    var tmp := a[i];
    a[i] := a[j];
    a[j] := tmp;
  }

  /** What the loop still makes of a list when it is about to settle position i. */
  ghost function Pending<T>(s: seq<T>, i: nat, stream: nat -> Word, pos: nat): seq<T>
    requires i < |s|
  {
    Shuffled(s[..i + 1], StreamDraws(stream, pos, i + 1)) + s[i + 1..]
  }

  lemma PendingStep<T>(before: seq<T>, i: nat, stream: nat -> Word, pos: nat, j: nat, after: seq<T>)
    requires 0 < i < |before| && j == DrawBelow(stream(pos), i + 1)
    requires after == before[i := before[j]][j := before[i]]
    ensures Pending(after, i - 1, stream, pos + 1) == Pending(before, i, stream, pos)
  {
    var prefix := before[..i + 1];
    SwapSplits(before, i, j, after);
    StreamStep(prefix, stream, pos, j);
    assert Pending(after, i - 1, stream, pos + 1)
        == Shuffled(Rest(prefix, j), StreamDraws(stream, pos + 1, i)) + ([prefix[j]] + before[i + 1..]);
  }

  lemma SwapSplits<T>(before: seq<T>, i: nat, j: nat, after: seq<T>)
    requires j <= i < |before| && after == before[i := before[j]][j := before[i]]
    ensures after[..i] == Rest(before[..i + 1], j)
    ensures after[i..] == [before[j]] + before[i + 1..]
  {
  }

  lemma StreamStep<T>(prefix: seq<T>, stream: nat -> Word, pos: nat, j: nat)
    requires |prefix| >= 2 && j == DrawBelow(stream(pos), |prefix|)
    ensures Shuffled(prefix, StreamDraws(stream, pos, |prefix|))
         == Shuffled(Rest(prefix, j), StreamDraws(stream, pos + 1, |prefix| - 1)) + [prefix[j]]
  {
    ShuffledSnoc(prefix, StreamDraws(stream, pos + 1, |prefix| - 1), j);
  }

  lemma PendingAtStart<T>(s: seq<T>, stream: nat -> Word, pos: nat)
    requires s != []
    ensures Pending(s, |s| - 1, stream, pos) == Shuffled(s, StreamDraws(stream, pos, |s|))
  {
    assert s[..|s|] == s && s[|s|..] == [];
  }

  lemma PendingAtEnd<T>(s: seq<T>, stream: nat -> Word, pos: nat)
    requires s != []
    ensures Pending(s, 0, stream, pos) == s
  {
    OneItem(s[..1], StreamDraws(stream, pos, 1));
    assert s == s[..1] + s[1..];
  }

  lemma PendingAtEnds<T>(s: seq<T>, stream: nat -> Word, pos: nat)
    requires s != []
    ensures Pending(s, |s| - 1, stream, pos) == Shuffled(s, StreamDraws(stream, pos, |s|))
    ensures Pending(s, 0, stream, pos) == s
  {
    PendingAtStart(s, stream, pos);
    PendingAtEnd(s, stream, pos);
  }

  lemma OneItem<T>(s: seq<T>, draws: seq<nat>)
    requires |s| == |draws| == 1 && ValidDraws(draws)
    ensures Shuffled(s, draws) == s
  {
    assert Rest(s, draws[0]) == [];
  }
}
