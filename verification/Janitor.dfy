/** scripts/relay-janitor.js: classifying registry entries and sweeping a fleet of relays. */
module Janitor {
  import opened Texts

  // ---------------------------------------------------------------- classification

  /** A JavaScript number. */
  datatype Number = NaN | Infinity(neg: bool) | Finite(value: real)

  predicate AtLeast(n: Number, bound: real) {
    match n
    case NaN => false
    case Infinity(neg) => !neg
    case Finite(v) => v >= bound
  }

  predicate Above(n: Number, bound: real) {
    match n
    case NaN => false
    case Infinity(neg) => !neg
    case Finite(v) => v > bound
  }

  /** One registry entry: numbers after Number(...), texts after String(... || '').trim(). */
  datatype App = App(
    appKey: Text,
    durability: Number,
    irrevocable: bool,
    bytesServed: Number,
    retainUntil: Number,
    blind: bool,
    appId: string,
    name: string,
    author: string)

  datatype Bucket = Keep | Test | Fed | Review

  const TEST_AUTHORS := {"observatory-test-runner", "custody-e2e-runner"}

  predicate TestName(s: string) {
    "test-" <= s || "custody-" <= s
  }

  predicate Durable(a: App) {
    AtLeast(a.durability, 1.0)
  }

  predicate Served(a: App) {
    Above(a.bytesServed, 0.0)
  }

  predicate ActiveRetain(a: App, now: real) {
    a.retainUntil.Finite? && Above(a.retainUntil, now)
  }

  predicate TestIdentity(a: App) {
    TestName(a.appId) || TestName(a.name) || a.author in TEST_AUTHORS
  }

  predicate NoIdentity(a: App) {
    a.appId == "" && a.name == "" && (a.author == "" || a.author == "anonymous")
  }

  function Classify(a: App, now: real): Bucket {
    if Durable(a) then Keep
    else if a.irrevocable then Keep
    else if Served(a) then Keep
    else if ActiveRetain(a, now) && a.blind then Keep
    else if TestIdentity(a) then Test
    else if NoIdentity(a) && !Durable(a) && !a.irrevocable && !Served(a) && !ActiveRetain(a, now) then Fed
    else Review
  }

  /** A commitment or a use that must not be swept unreviewed. */
  predicate Protected(a: App, now: real) {
    Durable(a) || a.irrevocable || Served(a) || (ActiveRetain(a, now) && a.blind)
  }

  /** The buckets by what they mean: kept is exactly what is protected; of the rest, our own test artifacts go to Test,
      entries nobody signed and nobody retains to Fed, and all else to Review. */
  lemma ClassifyMeaning(a: App, now: real)
    ensures Classify(a, now) == Keep <==> Protected(a, now)
    ensures Classify(a, now) == Test <==> TestIdentity(a) && !Protected(a, now)
    ensures Classify(a, now) == Fed <==> NoIdentity(a) && !Protected(a, now) && !ActiveRetain(a, now)
  {
    if NoIdentity(a) {
      NoIdentityIsNoTest(a);
    }
  }

  lemma NoIdentityIsNoTest(a: App)
    requires NoIdentity(a)
    ensures !TestIdentity(a)
  {
  }

  /** The header promises to keep every entry with an unexpired retainUntil; the code asks for `blind` as well. */
  lemma RetainedNotKept(a: App, now: real)
    requires ActiveRetain(a, now) && !Durable(a) && !a.irrevocable && !Served(a)
    ensures Classify(a, now) == Keep <==> a.blind
  {
  }

  /** An entry with an hour left and nothing else to protect it goes to review, and with no identity to the junk. */
  lemma RetainedJunk()
    ensures Classify(App([], NaN, false, NaN, Finite(3600.0), false, "", "x", ""), 0.0) == Review
    ensures Classify(App([], NaN, false, NaN, Finite(3600.0), false, "test-1", "", ""), 0.0) == Test
    ensures Classify(App([], NaN, false, NaN, Finite(3600.0), true, "test-1", "", ""), 0.0) == Keep
  {
  }

  /** Entries with one mark each, and where they go. */
  function Plain(durability: Number, irrevocable: bool, served: Number, appId: string, name: string, author: string): App {
    App([], durability, irrevocable, served, NaN, false, appId, name, author)
  }

  lemma KnownKept()
    ensures Classify(Plain(Finite(1.0), false, NaN, "", "", ""), 0.0) == Keep
    ensures Classify(Plain(Infinity(false), false, NaN, "test-x", "", ""), 0.0) == Keep
    ensures Classify(Plain(Finite(0.9), true, NaN, "", "", ""), 0.0) == Keep
    ensures Classify(Plain(NaN, false, Finite(0.5), "", "", ""), 0.0) == Keep
  {
  }

  lemma KnownServed(x: real)
    requires x > 0.0
    ensures Served(Plain(NaN, false, Finite(x), "", "", "")) && Served(Plain(NaN, false, Infinity(false), "", "", ""))
    ensures !Served(Plain(NaN, false, Finite(-x), "", "", "")) && !Served(Plain(NaN, false, Infinity(true), "", "", ""))
  {
  }

  lemma KnownTest()
    ensures TestName("test-") && TestName("custody-") && !TestName("tes") && !TestName("my-test-app")
    ensures Classify(Plain(Finite(0.9), false, Finite(0.0), "test-1", "", ""), 0.0) == Test
    ensures Classify(Plain(NaN, false, NaN, "", "custody-9", ""), 0.0) == Test
    ensures Classify(Plain(NaN, false, NaN, "", "", "observatory-test-runner"), 0.0) == Test
    ensures Classify(Plain(NaN, false, NaN, "", "", "custody-e2e-runner"), 0.0) == Test
  {
    assert "my-test-app"[0] == 'm';
  }

  lemma KnownJunk()
    ensures Classify(Plain(NaN, false, Finite(-1.0), "", "", ""), 0.0) == Fed
    ensures Classify(Plain(Finite(0.0), false, NaN, "", "", "anonymous"), 0.0) == Fed
    ensures Classify(Plain(NaN, false, NaN, "x", "", ""), 0.0) == Review
    ensures Classify(Plain(NaN, false, NaN, "", "", "x"), 0.0) == Review
  {
    assert |"x"| < |"test-"|;
  }

  // ---------------------------------------------------------------- versions

  /** Component i of a version after split('.').map(Number); NaN and missing ones count as 0. */
  function Component(v: seq<Number>, i: nat): (n: Number)
    ensures !n.NaN?
  {
    if i < |v| && !v[i].NaN? then v[i] else Finite(0.0)
  }

  predicate Less(a: Number, b: Number)
    requires !a.NaN? && !b.NaN?
  {
    match (a, b)
    case (Finite(x), Finite(y)) => x < y
    case (Infinity(neg), _) => neg && b != Infinity(true)
    case (_, Infinity(neg)) => !neg
  }

  ghost predicate VersionGE(v: seq<Number>, min: seq<Number>) {
    var a, b, c := Component(v, 0), Component(v, 1), Component(v, 2);
    var x, y, z := Component(min, 0), Component(min, 1), Component(min, 2);
    Less(x, a) || (a == x && (Less(y, b) || (b == y && !Less(c, z))))
  }

  method CompareVersions(v: seq<Number>, min: seq<Number>) returns (ge: bool)
    ensures ge <==> VersionGE(v, min)
  {
    for i := 0 to 3
      invariant forall j | 0 <= j < i :: Component(v, j) == Component(min, j)
    {
      if Less(Component(min, i), Component(v, i)) { return true; }
      if Less(Component(v, i), Component(min, i)) { return false; }
    }
    return true;
  }

  /** versionGE is a total preorder. */
  lemma VersionOrder(a: seq<Number>, b: seq<Number>, c: seq<Number>)
    ensures VersionGE(a, a)
    ensures VersionGE(a, b) || VersionGE(b, a)
    ensures VersionGE(a, b) && VersionGE(b, c) ==> VersionGE(a, c)
  {
  }

  /** The first component that differs decides, whichever it is; missing components and garbage count as 0. */
  lemma VersionMeaning(v: seq<Number>, min: seq<Number>)
    requires |v| == |min| == 3 && v[0].Finite? && v[1].Finite? && v[2].Finite? && min[0].Finite? && min[1].Finite? && min[2].Finite?
    ensures VersionGE(v, min) <==>
            || v[0].value > min[0].value
            || (v[0].value == min[0].value && v[1].value > min[1].value)
            || (v[0].value == min[0].value && v[1].value == min[1].value && v[2].value >= min[2].value)
  {
  }

  lemma KnownVersions()
    ensures VersionGE([Finite(1.0), Finite(0.0), Finite(0.0)], MIN_VERSION) && VersionGE([Finite(1.0)], MIN_VERSION)
    ensures VersionGE([Finite(0.0), Finite(8.0), Finite(14.0)], MIN_VERSION)
    ensures VersionGE([Finite(0.0), Finite(9.0)], MIN_VERSION) && !VersionGE([Finite(0.0), Finite(8.0)], MIN_VERSION)
    ensures !VersionGE([NaN], MIN_VERSION) && !VersionGE([], MIN_VERSION) && !VersionGE([Finite(0.0), Finite(7.0), Finite(99.0)], MIN_VERSION)
  {
  }

  const MIN_VERSION: seq<Number> := [Finite(0.0), Finite(8.0), Finite(14.0)]

  // ---------------------------------------------------------------- one relay

  function InBucket(apps: seq<App>, bucket: Bucket, now: real): (r: seq<App>)
    ensures forall a | a in r :: a in apps && Classify(a, now) == bucket
  {
    if apps == [] then []
    else
      var last := apps[|apps| - 1];
      InBucket(apps[..|apps| - 1], bucket, now) + if Classify(last, now) == bucket then [last] else []
  }

  lemma {:induction false} BucketsAddUp(apps: seq<App>, now: real)
    ensures |InBucket(apps, Keep, now)| + |InBucket(apps, Test, now)| + |InBucket(apps, Fed, now)| + |InBucket(apps, Review, now)| == |apps|
  {
    if apps != [] {
      BucketsAddUp(apps[..|apps| - 1], now);
    }
  }

  function Reviewed(apps: seq<App>, keys: set<Text>): (r: seq<App>)
    ensures |r| <= |apps|
    ensures forall a | a in r :: a in apps && a.appKey in keys
  {
    if apps == [] then []
    else
      var last := apps[|apps| - 1];
      Reviewed(apps[..|apps| - 1], keys) + if last.appKey in keys then [last] else []
  }

  /** list.slice(0, end): a negative end counts from the back. */
  function SliceTo<T>(s: seq<T>, end: int): (r: seq<T>)
    ensures r <= s
  {
    if end < 0 then if |s| + end <= 0 then [] else s[..|s| + end]
    else if end >= |s| then s else s[..end]
  }

  /** A cap that is not negative leaves the first that many, in order; a negative one drops as many from the back. */
  lemma SliceKeeps<T>(s: seq<T>, end: int)
    ensures end >= 0 ==> |SliceTo(s, end)| == if end < |s| then end else |s|
    ensures end < 0 ==> |SliceTo(s, end)| == if |s| + end > 0 then |s| + end else 0
    ensures SliceTo(s, end) == s[..|SliceTo(s, end)|]
  {
  }

  /** The flags of a run. A cap that is not a number slices to nothing, like 0. */
  datatype Flags = Flags(apply: bool, tier1: bool, reviewed: set<Text>, cap: int)

  function Listed(apps: seq<App>, now: real): seq<App> {
    InBucket(apps, Test, now) + InBucket(apps, Fed, now) + InBucket(apps, Review, now) + InBucket(apps, Keep, now)
  }

  function ToSweep(apps: seq<App>, f: Flags, now: real): seq<App> {
    SliceTo((if f.tier1 then InBucket(apps, Test, now) else []) + Reviewed(Listed(apps, now), f.reviewed), f.cap)
  }

  /** The list that the cap cuts: under --tier1 the test entries first, then the reviewed ones, test, fed, review and
      kept. */
  lemma SweepOrder(apps: seq<App>, f: Flags, now: real)
    ensures var reviewed := Reviewed(InBucket(apps, Test, now), f.reviewed) + Reviewed(InBucket(apps, Fed, now), f.reviewed)
                          + Reviewed(InBucket(apps, Review, now), f.reviewed) + Reviewed(InBucket(apps, Keep, now), f.reviewed);
            ToSweep(apps, f, now) == SliceTo((if f.tier1 then InBucket(apps, Test, now) else []) + reviewed, f.cap)
  {
    var a, b, c, d := InBucket(apps, Test, now), InBucket(apps, Fed, now), InBucket(apps, Review, now), InBucket(apps, Keep, now);
    ReviewedConcat(a, b, f.reviewed);
    ReviewedConcat(a + b, c, f.reviewed);
    ReviewedConcat(a + b + c, d, f.reviewed);
  }

  lemma {:induction false} ReviewedConcat(a: seq<App>, b: seq<App>, keys: set<Text>)
    ensures Reviewed(a + b, keys) == Reviewed(a, keys) + Reviewed(b, keys)
    decreases |b|
  {
    if b == [] {
      assert a + b == a;
    } else {
      var front, last := SplitLast(b);
      ReviewedConcat(a, front, keys);
      ReviewedConcatStep(a, front, last, keys);
    }
  }

  lemma ReviewedConcatStep(a: seq<App>, front: seq<App>, last: App, keys: set<Text>)
    requires Reviewed(a + front, keys) == Reviewed(a, keys) + Reviewed(front, keys)
    ensures Reviewed(a + (front + [last]), keys) == Reviewed(a, keys) + Reviewed(front + [last], keys)
  {
    var more := if last.appKey in keys then [last] else [];
    ReviewedSnoc(front, last, keys);
    ReviewedSnoc(a + front, last, keys);
    Regroup(a, front, [last]);
    Regroup(Reviewed(a, keys), Reviewed(front, keys), more);
  }

  lemma Regroup(a: seq<App>, b: seq<App>, c: seq<App>)
    ensures a + (b + c) == a + b + c
  {
  }

  lemma SplitLast(apps: seq<App>) returns (front: seq<App>, last: App)
    requires apps != []
    ensures apps == front + [last]
  {
    front, last := apps[..|apps| - 1], apps[|apps| - 1];
  }

  lemma ReviewedSnoc(a: seq<App>, x: App, keys: set<Text>)
    ensures Reviewed(a + [x], keys) == Reviewed(a, keys) + if x.appKey in keys then [x] else []
  {
    assert (a + [x])[..|a + [x]| - 1] == a;
  }

  /** What is known of one relay: whether its registry and API key could be read, its version, its apps. */
  datatype Relay = Relay(readable: bool, hasKey: bool, version: seq<Number>, apps: seq<App>)

  datatype Totals = Totals(kept: nat, testJunk: nat, fedJunk: nat, review: nat, swept: nat, sweepErr: nat)

  /** The relay passes every gate in front of the unseed calls. */
  ghost predicate Sweepable(r: Relay, f: Flags) {
    f.apply && r.readable && r.hasKey && VersionGE(r.version, MIN_VERSION)
  }

  /** The keys unseeded for a list of entries; keys of another length are passed over. */
  function KeysOf(apps: seq<App>): (keys: seq<Text>)
    ensures |keys| <= |apps|
  {
    if apps == [] then []
    else
      var last := apps[|apps| - 1];
      KeysOf(apps[..|apps| - 1]) + if |last.appKey| == 64 then [last.appKey] else []
  }

  /** The unseed calls on one relay. */
  ghost function Calls(r: Relay, f: Flags, now: real): seq<Text> {
    if Sweepable(r, f) then KeysOf(ToSweep(r.apps, f, now)) else []
  }

  /** A dry run calls nothing, and neither does any run a relay that cannot be read, has no key or is below 0.8.14; any
      other relay is called for whatever there is to sweep. */
  lemma NoCallWithout(r: Relay, f: Flags, now: real)
    ensures !f.apply || !r.readable || !r.hasKey || !VersionGE(r.version, [Finite(0.0), Finite(8.0), Finite(14.0)]) ==>
              Calls(r, f, now) == []
    ensures f.apply && r.readable && r.hasKey && VersionGE(r.version, [Finite(0.0), Finite(8.0), Finite(14.0)]) ==>
              Calls(r, f, now) == KeysOf(ToSweep(r.apps, f, now))
  {
  }

  lemma {:induction false} KeysOfMember(apps: seq<App>, k: Text)
    ensures k in KeysOf(apps) <==> |k| == 64 && exists a :: a in apps && a.appKey == k
  {
    if apps != [] {
      var front, last := apps[..|apps| - 1], apps[|apps| - 1];
      KeysOfMember(front, k);
      assert forall a :: a in apps <==> a in front || a == last;
    }
  }

  lemma ToSweepAllowed(apps: seq<App>, f: Flags, now: real, a: App)
    requires a in ToSweep(apps, f, now)
    ensures a in apps && ((f.tier1 && Classify(a, now) == Test) || a.appKey in f.reviewed)
  {
  }

  /** Every call on a relay is for one of its entries, either a test entry in a --tier1 run or one whose key was
      reviewed; a cap that is not negative is kept. */
  ghost predicate CallsAllowed(calls: seq<Text>, r: Relay, f: Flags, now: real) {
    && (calls != [] ==> Sweepable(r, f))
    && (forall k | k in calls :: AllowedKey(k, r, f, now))
    && (f.cap >= 0 ==> |calls| <= f.cap)
  }

  ghost predicate AllowedKey(k: Text, r: Relay, f: Flags, now: real) {
    exists a :: a in r.apps && a.appKey == k && ((f.tier1 && Classify(a, now) == Test) || k in f.reviewed)
  }

  lemma CallsAreAllowed(r: Relay, f: Flags, now: real)
    ensures CallsAllowed(Calls(r, f, now), r, f, now)
  {
    var toSweep := ToSweep(r.apps, f, now);
    forall k | k in Calls(r, f, now) ensures AllowedKey(k, r, f, now) {
      KeysOfMember(toSweep, k);
      var a :| a in toSweep && a.appKey == k;
      ToSweepAllowed(r.apps, f, now, a);
    }
  }

  // ---------------------------------------------------------------- protected entries

  ghost predicate TestTwin(apps: seq<App>, k: Text, now: real) {
    exists b :: b in apps && b.appKey == k && Classify(b, now) == Test
  }

  /** A protected entry is swept only through the reviewed file, or in a --tier1 run through a test entry that
      the registry lists under the same key ... */
  lemma ProtectedNeedsReview(r: Relay, f: Flags, now: real, a: App)
    requires a in r.apps && Protected(a, now) && a.appKey in Calls(r, f, now)
    ensures a.appKey in f.reviewed || (f.tier1 && TestTwin(r.apps, a.appKey, now))
  {
    CallsAreAllowed(r, f, now);
    assert AllowedKey(a.appKey, r, f, now);
  }

  /** What is unseeded without review is one of our own test artifacts: nothing protected, nothing without an
      identity, nothing left to a human. */
  lemma UnreviewedIsOurs(r: Relay, f: Flags, now: real, k: Text)
    requires k in Calls(r, f, now) && k !in f.reviewed
    ensures f.tier1 && exists a :: a in r.apps && a.appKey == k && TestIdentity(a) && !NoIdentity(a) && !Protected(a, now)
  {
    CallsAreAllowed(r, f, now);
    assert AllowedKey(k, r, f, now);
    var a :| a in r.apps && a.appKey == k && f.tier1 && Classify(a, now) == Test;
    ClassifyMeaning(a, now);
    if NoIdentity(a) {
      NoIdentityIsNoTest(a);
    }
  }

  /** No flags sweep a protected entry unreviewed. */
  ghost predicate NeverUnreviewed(r: Relay, now: real) {
    forall f: Flags, a | a in r.apps && Protected(a, now) && a.appKey in Calls(r, f, now) :: a.appKey in f.reviewed
  }

  /** ... so the registries safe under all flags are exactly those where no protected entry has a test twin. */
  lemma NeverUnreviewedIff(r: Relay, now: real)
    requires r.readable && r.hasKey && VersionGE(r.version, MIN_VERSION)
    ensures NeverUnreviewed(r, now) <==>
            forall a | a in r.apps && Protected(a, now) && |a.appKey| == 64 :: !TestTwin(r.apps, a.appKey, now)
  {
    if NeverUnreviewed(r, now) {
      var f := Flags(true, true, {}, 2 * |r.apps|);
      forall a | a in r.apps && Protected(a, now) && |a.appKey| == 64 ensures !TestTwin(r.apps, a.appKey, now) {
        CallsComplete(r, f, now, a.appKey);
        assert TestTwin(r.apps, a.appKey, now) ==> AllowedKey(a.appKey, r, f, now);
      }
    } else {
      var f: Flags, a :| a in r.apps && Protected(a, now) && a.appKey in Calls(r, f, now) && a.appKey !in f.reviewed;
      ProtectedNeedsReview(r, f, now, a);
      KeysOfMember(ToSweep(r.apps, f, now), a.appKey);
    }
  }

  lemma {:induction false} InBucketAll(apps: seq<App>, bucket: Bucket, now: real, a: App)
    requires a in apps && Classify(a, now) == bucket
    ensures a in InBucket(apps, bucket, now)
  {
    var front, last := apps[..|apps| - 1], apps[|apps| - 1];
    if a != last {
      InBucketAll(front, bucket, now, a);
    }
  }

  lemma {:induction false} ReviewedAll(apps: seq<App>, keys: set<Text>, a: App)
    requires a in apps && a.appKey in keys
    ensures a in Reviewed(apps, keys)
  {
    var front, last := apps[..|apps| - 1], apps[|apps| - 1];
    if a != last {
      ReviewedAll(front, keys, a);
    }
  }

  /** The four buckets one after the other hold the whole registry. */
  lemma AllListed(apps: seq<App>, now: real, a: App)
    requires a in apps
    ensures a in Listed(apps, now)
    ensures |Listed(apps, now)| == |apps|
  {
    InBucketAll(apps, Classify(a, now), now, a);
    BucketsAddUp(apps, now);
  }

  /** When the cap leaves room, the calls are all the allowed ones: under --tier1 every test entry, and every
      reviewed key the relay has. */
  lemma CallsComplete(r: Relay, f: Flags, now: real, k: Text)
    requires f.cap >= 2 * |r.apps|
    ensures k in Calls(r, f, now) <==> Sweepable(r, f) && |k| == 64 && AllowedKey(k, r, f, now)
  {
    CallsAreAllowed(r, f, now);
    var toSweep := ToSweep(r.apps, f, now);
    KeysOfMember(toSweep, k);
    if AllowedKey(k, r, f, now) {
      var a :| a in r.apps && a.appKey == k && ((f.tier1 && Classify(a, now) == Test) || k in f.reviewed);
      AllListed(r.apps, now, a);
      BucketsAddUp(r.apps, now);
      if k in f.reviewed {
        ReviewedAll(Listed(r.apps, now), f.reviewed, a);
      } else {
        InBucketAll(r.apps, Test, now, a);
      }
      assert a in toSweep;
    }
  }

  const DOUBLE_KEY: Text := seq(64, i => DIGIT_0)

  /** One key listed as durable and again under a test name: --tier1 unseeds it with nothing reviewed. */
  lemma DurableSwept(now: real)
    ensures var durable := App(DOUBLE_KEY, Finite(1.0), false, Finite(0.0), Finite(0.0), false, "", "", "");
            var twin := App(DOUBLE_KEY, Finite(0.0), false, Finite(0.0), Finite(0.0), false, "test-1", "", "");
            && Protected(durable, now)
            && DOUBLE_KEY in Calls(Relay(true, true, MIN_VERSION, [durable, twin]), Flags(true, true, {}, 4), now)
  {
    var durable := App(DOUBLE_KEY, Finite(1.0), false, Finite(0.0), Finite(0.0), false, "", "", "");
    var twin := App(DOUBLE_KEY, Finite(0.0), false, Finite(0.0), Finite(0.0), false, "test-1", "", "");
    assert twin in [durable, twin] && Classify(twin, now) == Test;
    CallsComplete(Relay(true, true, MIN_VERSION, [durable, twin]), Flags(true, true, {}, 4), now, DOUBLE_KEY);
  }

  /** A negative cap is no cap: it sweeps all but the last few. */
  lemma NegativeCap(s: seq<App>, cap: int)
    ensures |SliceTo(s, cap)| <= (if cap >= 0 then cap else 0) <==> cap >= 0 || |s| + cap <= 0
  {
  }

  /** --cap -1 on three entries sweeps two. */
  lemma NegativeCapSweeps(a: App, b: App, c: App)
    ensures SliceTo([a, b, c], -1) == [a, b]
  {
  }

  // ---------------------------------------------------------------- the fleet

  /** How many of the calls for these entries are answered ok; entry i has answer i. */
  function Succeeded(apps: seq<App>, answers: seq<bool>): (n: nat)
    ensures n <= |KeysOf(apps)|
  {
    if apps == [] then 0
    else
      var i := |apps| - 1;
      Succeeded(apps[..i], answers) + if |apps[i].appKey| == 64 && i < |answers| && answers[i] then 1 else 0
  }

  /** If every call is answered ok all of them succeed, and if none is, none. */
  lemma {:induction false} AnswersCount(apps: seq<App>, answers: seq<bool>)
    ensures (|answers| >= |apps| && forall i | 0 <= i < |apps| :: answers[i]) ==> Succeeded(apps, answers) == |KeysOf(apps)|
    ensures (forall i | 0 <= i < |answers| :: !answers[i]) ==> Succeeded(apps, answers) == 0
  {
    if apps != [] {
      AnswersCount(apps[..|apps| - 1], answers);
    }
  }

  lemma OneMoreApp(apps: seq<App>, i: nat, answers: seq<bool>)
    requires i < |apps|
    ensures KeysOf(apps[..i + 1]) == KeysOf(apps[..i]) + if |apps[i].appKey| == 64 then [apps[i].appKey] else []
    ensures Succeeded(apps[..i + 1], answers)
         == Succeeded(apps[..i], answers) + if |apps[i].appKey| == 64 && i < |answers| && answers[i] then 1 else 0
  {
    assert apps[..i + 1][..i] == apps[..i];
  }

  /** The loop of unseed calls; `answers` says which succeed. */
  method Unseed(toSweep: seq<App>, answers: seq<bool>) returns (calls: seq<Text>, swept: nat, sweepErr: nat)
    ensures calls == KeysOf(toSweep) && swept == Succeeded(toSweep, answers) && sweepErr == |calls| - swept
  {
    calls, swept, sweepErr := [], 0, 0;
    for i := 0 to |toSweep|
      invariant calls == KeysOf(toSweep[..i])
      invariant swept == Succeeded(toSweep[..i], answers) && sweepErr == |calls| - swept
    {
      OneMoreApp(toSweep, i, answers);
      var a := toSweep[i];
      if |a.appKey| == 64 {
        calls := calls + [a.appKey];
        if i < |answers| && answers[i] { swept := swept + 1; } else { sweepErr := sweepErr + 1; }
      }
    }
    assert toSweep[..|toSweep|] == toSweep;
  }

  ghost function CountIn(r: Relay, bucket: Bucket, now: real): nat {
    if r.readable then |InBucket(r.apps, bucket, now)| else 0
  }

  ghost function SweptOn(r: Relay, f: Flags, now: real, answers: seq<bool>): (n: nat)
    ensures n <= |Calls(r, f, now)|
  {
    if Sweepable(r, f) then Succeeded(ToSweep(r.apps, f, now), answers) else 0
  }

  /** The totals with one relay more. */
  ghost function Plus(t: Totals, r: Relay, f: Flags, now: real, answers: seq<bool>): Totals {
    Totals(
      t.kept + CountIn(r, Keep, now), t.testJunk + CountIn(r, Test, now),
      t.fedJunk + CountIn(r, Fed, now), t.review + CountIn(r, Review, now),
      t.swept + SweptOn(r, f, now, answers), t.sweepErr + |Calls(r, f, now)| - SweptOn(r, f, now, answers))
  }

  method SweepRelay(r: Relay, f: Flags, now: real, answers: seq<bool>, totals: Totals) returns (calls: seq<Text>, out: Totals)
    ensures calls == Calls(r, f, now) && out == Plus(totals, r, f, now, answers)
  {
    calls, out := [], totals;
    if !r.readable { return; }
    out := out.(kept := out.kept + |InBucket(r.apps, Keep, now)|, testJunk := out.testJunk + |InBucket(r.apps, Test, now)|,
                fedJunk := out.fedJunk + |InBucket(r.apps, Fed, now)|, review := out.review + |InBucket(r.apps, Review, now)|);
    if !f.apply || !r.hasKey { return; }
    var recent := CompareVersions(r.version, MIN_VERSION);
    if !recent { return; }
    var swept, sweepErr;
    calls, swept, sweepErr := Unseed(ToSweep(r.apps, f, now), answers);
    out := out.(swept := out.swept + swept, sweepErr := out.sweepErr + sweepErr);
  }

  /** One relay's part of a run: the clock and the answers may differ from relay to relay. */
  datatype Visit = Visit(relay: Relay, now: real, answers: seq<bool>)

  ghost function TotalsOf(visits: seq<Visit>, f: Flags): Totals {
    if visits == [] then Totals(0, 0, 0, 0, 0, 0)
    else
      var v := visits[|visits| - 1];
      Plus(TotalsOf(visits[..|visits| - 1], f), v.relay, f, v.now, v.answers)
  }

  function RegistriesRead(visits: seq<Visit>): nat {
    if visits == [] then 0
    else
      var r := visits[|visits| - 1].relay;
      RegistriesRead(visits[..|visits| - 1]) + if r.readable then |r.apps| else 0
  }

  ghost function CallCount(visits: seq<Visit>, f: Flags): nat {
    if visits == [] then 0
    else
      var v := visits[|visits| - 1];
      CallCount(visits[..|visits| - 1], f) + |Calls(v.relay, f, v.now)|
  }

  /** The buckets add up to the registries read, and successes and failures to the calls made. */
  lemma {:induction false} TotalsAddUp(visits: seq<Visit>, f: Flags)
    ensures var t := TotalsOf(visits, f);
            && t.kept + t.testJunk + t.fedJunk + t.review == RegistriesRead(visits)
            && t.swept + t.sweepErr == CallCount(visits, f)
  {
    if visits != [] {
      var v := visits[|visits| - 1];
      TotalsAddUp(visits[..|visits| - 1], f);
      BucketsAddUp(v.relay.apps, v.now);
    }
  }

  /** What the header promises of the versions: one relay that is too old, and nothing is swept anywhere. */
  ghost predicate RefusesOld(visits: seq<Visit>, f: Flags) {
    (exists v :: v in visits && !VersionGE(v.relay.version, MIN_VERSION)) ==> CallCount(visits, f) == 0
  }

  lemma {:induction false} NoCallsIff(visits: seq<Visit>, f: Flags)
    ensures CallCount(visits, f) == 0 <==> forall v | v in visits :: Calls(v.relay, f, v.now) == []
  {
    if visits != [] {
      var front, last := visits[..|visits| - 1], visits[|visits| - 1];
      NoCallsIff(front, f);
      assert visits == front + [last];
    }
  }

  /** Nothing on this relay passes the filters and the cap. */
  ghost predicate NothingToSweep(v: Visit, f: Flags) {
    !Sweepable(v.relay, f) || KeysOf(ToSweep(v.relay.apps, f, v.now)) == []
  }

  /** The code skips old relays one by one: the header's promise holds exactly when all relays are recent, or there is
      nothing to sweep anyway. */
  lemma RefusesOldIff(visits: seq<Visit>, f: Flags)
    ensures RefusesOld(visits, f) <==>
            (forall v | v in visits :: VersionGE(v.relay.version, MIN_VERSION)) || (forall v | v in visits :: NothingToSweep(v, f))
  {
    NoCallsIff(visits, f);
  }

  const OLD_VERSION: seq<Number> := [Finite(0.0), Finite(8.0), Finite(13.0)]

  lemma OldIsOld()
    ensures !VersionGE(OLD_VERSION, MIN_VERSION)
  {
  }

  lemma TestIsSwept(v: Visit, f: Flags, a: App)
    requires Sweepable(v.relay, f) && f.tier1 && f.cap >= 2 * |v.relay.apps|
    requires a in v.relay.apps && |a.appKey| == 64 && Classify(a, v.now) == Test
    ensures !NothingToSweep(v, f)
  {
    assert AllowedKey(a.appKey, v.relay, f, v.now);
    CallsComplete(v.relay, f, v.now, a.appKey);
  }

  /** An old relay beside a recent one with a test entry: the recent one is swept. */
  lemma OldBesideRecent(old_: Visit, recent: Visit, f: Flags, a: App)
    requires old_.relay.version == OLD_VERSION && Sweepable(recent.relay, f) && f.tier1 && f.cap >= 2 * |recent.relay.apps|
    requires a in recent.relay.apps && |a.appKey| == 64 && Classify(a, recent.now) == Test
    ensures !RefusesOld([old_, recent], f)
  {
    OldIsOld();
    TestIsSwept(recent, f, a);
    RefusesOldIff([old_, recent], f);
    assert old_ in [old_, recent] && recent in [old_, recent];
  }

  ghost predicate FleetSwept(calls: seq<seq<Text>>, visits: seq<Visit>, f: Flags) {
    && |calls| == |visits|
    && forall i | 0 <= i < |calls| ::
         var v := visits[i];
         calls[i] == Calls(v.relay, f, v.now) && CallsAllowed(calls[i], v.relay, f, v.now)
  }

  lemma FleetSweptSnoc(calls: seq<seq<Text>>, visits: seq<Visit>, i: nat, f: Flags)
    requires i < |visits| && FleetSwept(calls, visits[..i], f)
    ensures var v := visits[i]; FleetSwept(calls + [Calls(v.relay, f, v.now)], visits[..i + 1], f)
  {
    var all := calls + [Calls(visits[i].relay, f, visits[i].now)];
    forall j | 0 <= j < |all|
      ensures var v := visits[..i + 1][j]; all[j] == Calls(v.relay, f, v.now) && CallsAllowed(all[j], v.relay, f, v.now) {
      if j < i {
        assert visits[..i + 1][j] == visits[..i][j];
      } else {
        CallsAreAllowed(visits[i].relay, f, visits[i].now);
      }
    }
  }

  lemma TotalsSnoc(visits: seq<Visit>, i: nat, f: Flags)
    requires i < |visits|
    ensures var v := visits[i]; TotalsOf(visits[..i + 1], f) == Plus(TotalsOf(visits[..i], f), v.relay, f, v.now, v.answers)
  {
    assert visits[..i + 1][..i] == visits[..i];
  }

  /** A whole run: on every relay just the allowed calls, and totals that account for every entry and every call. */
  method SweepFleet(visits: seq<Visit>, f: Flags) returns (calls: seq<seq<Text>>, totals: Totals)
    ensures FleetSwept(calls, visits, f) && totals == TotalsOf(visits, f)
    ensures totals.kept + totals.testJunk + totals.fedJunk + totals.review == RegistriesRead(visits)
    ensures totals.swept + totals.sweepErr == CallCount(visits, f)
  {
    calls, totals := [], Totals(0, 0, 0, 0, 0, 0);
    for i := 0 to |visits|
      invariant FleetSwept(calls, visits[..i], f) && totals == TotalsOf(visits[..i], f)
    {
      var swept;
      swept, totals := SweepRelay(visits[i].relay, f, visits[i].now, visits[i].answers, totals);
      FleetSweptSnoc(calls, visits, i, f);
      TotalsSnoc(visits, i, f);
      calls := calls + [swept];
    }
    assert visits[..|visits|] == visits;
    TotalsAddUp(visits, f);
  }
}
