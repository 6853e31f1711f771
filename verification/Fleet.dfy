/** scripts/simulate-auto-heal-bridge.js: the fleet with liars, churn and partitions, and what checking proofs tells. */
module Fleet {
  import opened Wrappers
  import opened Texts

  type Key = Text

  /** One relay; `hosting` is a JavaScript Set, in insertion order. */
  datatype Node = Node(region: Text, operator: Text, hosting: seq<Text>, online: bool, lying: bool)

  datatype Partition = Partition(a: set<Key>, b: set<Key>)

  /** `order` is the insertion order of the Map `relays`. */
  datatype Fleet = Fleet(order: seq<Key>, relays: map<Key, Node>, partitions: Option<Partition>)
  {
    ghost predicate Valid() {
      && (forall i, j | 0 <= i < j < |order| :: order[i] != order[j])
      && (forall pk :: pk in order <==> pk in relays)
    }

    predicate Hosts(pk: Key, app: Text) {
      pk in relays && app in relays[pk].hosting
    }
  }

  /** Set.add, once and over a list. */
  function AddApp(s: seq<Text>, app: Text): seq<Text> {
    if app in s then s else s + [app]
  }

  function AddApps(s: seq<Text>, apps: seq<Text>): (r: seq<Text>)
    ensures forall a :: a in r <==> a in s || a in apps
  {
    if apps == [] then s
    else
      assert apps == apps[..|apps| - 1] + [apps[|apps| - 1]];
      AddApp(AddApps(s, apps[..|apps| - 1]), apps[|apps| - 1])
  }

  ghost predicate Once(apps: seq<Text>) {
    forall i, j | 0 <= i < j < |apps| :: apps[i] != apps[j]
  }

  /** A set keeps the order in which its elements were added, each of them once. */
  lemma {:induction false} AddedInOrder(s: seq<Text>, apps: seq<Text>)
    requires Once(s)
    ensures Once(AddApps(s, apps))
    ensures s <= AddApps(s, apps)
    ensures Once(apps) && (forall a | a in apps :: a !in s) ==> AddApps(s, apps) == s + apps
    decreases |apps|
  {
    if apps != [] {
      var front, app := apps[..|apps| - 1], apps[|apps| - 1];
      AddedInOrder(s, front);
      assert Once(apps) ==> app !in front;
    }
  }

  // ---------------------------------------------------------------- urls

  const HTTPS: Text := [104, 116, 116, 112, 115, 58, 47, 47]
  const EXAMPLE: Text := [46, 101, 120, 97, 109, 112, 108, 101]

  function Url(pk: Key): Text {
    HTTPS + pk + EXAMPLE
  }

  /** text.replace(needle, ''): the first occurrence goes. */
  function RemoveFirst(t: Text, needle: Text): Text {
    if needle <= t then t[|needle|..]
    else if t == [] then []
    else [t[0]] + RemoveFirst(t[1..], needle)
  }

  /** How the proof fetcher reads the key back from a url. */
  function KeyOfUrl(url: Text): Key {
    RemoveFirst(RemoveFirst(url, HTTPS), EXAMPLE)
  }

  predicate Repeats(t: Text) {
    t == [] || (EXAMPLE <= t && Repeats(t[8..]))
  }

  /** From the first ".example" on there is nothing but ".example"s. */
  predicate OnlyRepeatsAfter(t: Text) {
    if EXAMPLE <= t then Repeats(t) else t == [] || OnlyRepeatsAfter(t[1..])
  }

  /** The keys that survive the trip through their url. */
  predicate UrlSafe(pk: Key) {
    OnlyRepeatsAfter(pk + EXAMPLE)
  }

  ghost predicate EndsWithExample(t: Text) {
    |t| >= 8 && t[|t| - 8..] == EXAMPLE
  }

  lemma ShortOverlap(t: Text)
    requires EXAMPLE <= t && EndsWithExample(t) && |t| < 16
    ensures t == EXAMPLE
  {
    var k := |t| - 8;
    assert t[k] == t[k..][0] == EXAMPLE[0];
    assert t[k..][0] == 46;
  }

  lemma RepeatShift(t: Text)
    requires |t| >= 16 && t[8..] == t[..|t| - 8]
    ensures t[8..][8..] == t[8..][..|t| - 16]
    ensures EXAMPLE <= t ==> EXAMPLE <= t[8..]
  {
    var v := t[8..];
    assert v[8..] == t[..|t| - 8][8..] == t[8..|t| - 8];
    assert v[..|t| - 16] == t[8..|t| - 8];
    assert v == t[..|t| - 8];
  }

  lemma {:induction false} DropEqualsRepeats(t: Text)
    requires EXAMPLE <= t && EndsWithExample(t)
    ensures t[8..] == t[..|t| - 8] <==> Repeats(t)
    decreases |t|
  {
    var v := t[8..];
    if |t| < 16 {
      ShortOverlap(t);
      assert v == [] && t[..|t| - 8] == [];
    } else {
      assert v[|v| - 8..] == t[|t| - 8..];
      assert EndsWithExample(v);
      if t[8..] == t[..|t| - 8] {
        RepeatShift(t);
        DropEqualsRepeats(v);
      }
      if Repeats(t) {
        assert v != [] && Repeats(v);
        DropEqualsRepeats(v);
        assert v[8..] == v[..|v| - 8];
        ShiftBack(t);
      }
    }
  }

  lemma ShiftBack(t: Text)
    requires |t| >= 16 && EXAMPLE <= t && EXAMPLE <= t[8..]
    requires t[8..][8..] == t[8..][..|t| - 16]
    ensures t[8..] == t[..|t| - 8]
  {
    var v := t[8..];
    assert t == EXAMPLE + v;
    assert v == EXAMPLE + v[8..];
    assert t[..|t| - 8] == EXAMPLE + v[..|t| - 16];
  }

  lemma {:induction false} RemoveFirstUndoes(pk: Key)
    ensures RemoveFirst(pk + EXAMPLE, EXAMPLE) == pk <==> UrlSafe(pk)
  {
    var t := pk + EXAMPLE;
    assert t[|t| - 8..] == EXAMPLE && t[..|t| - 8] == pk;
    if EXAMPLE <= t {
      DropEqualsRepeats(t);
    } else {
      assert pk == [] ==> t == EXAMPLE;
      RemoveFirstUndoes(pk[1..]);
      assert t[1..] == pk[1..] + EXAMPLE && pk == [pk[0]] + pk[1..];
    }
  }

  /** A key comes back from its url exactly when it is url-safe. */
  lemma UrlRoundTrip(pk: Key)
    ensures KeyOfUrl(Url(pk)) == pk <==> UrlSafe(pk)
  {
    var rest := pk + EXAMPLE;
    assert Url(pk) == HTTPS + rest;
    assert Url(pk)[|HTTPS|..] == rest;
    RemoveFirstUndoes(pk);
  }

  /** Not every key is: ".examplea" comes back as "a.example", the key of another relay. */
  lemma UnsafeKey()
    ensures KeyOfUrl(Url(EXAMPLE + [97])) == [97] + EXAMPLE
  {
    var rest := EXAMPLE + [97] + EXAMPLE;
    assert Url(EXAMPLE + [97]) == HTTPS + rest;
    assert Url(EXAMPLE + [97])[|HTTPS|..] == rest;
    assert EXAMPLE <= rest && rest[8..] == [97] + EXAMPLE;
  }

  // ---------------------------------------------------------------- what a viewer is told

  /** A partitioned viewer sees its own side; one on neither side sees everybody. */
  predicate Visible(f: Fleet, viewer: Key, pk: Key) {
    && pk in f.relays && pk != viewer && f.relays[pk].online
    && (f.partitions.Some? ==>
          var p := f.partitions.value;
          if viewer in p.a then pk in p.a else if viewer in p.b then pk in p.b else true)
  }

  /** Every app hosted by some relay of `order`, in the order met. */
  function AppsOf(f: Fleet, order: seq<Key>): seq<Text> {
    if order == [] then []
    else
      var front, pk := order[..|order| - 1], order[|order| - 1];
      if pk in f.relays then AddApps(AppsOf(f, front), f.relays[pk].hosting) else AppsOf(f, front)
  }

  function Without(apps: seq<Text>, some: seq<Text>): (r: seq<Text>)
    ensures forall a :: a in r <==> a in apps && a !in some
  {
    if apps == [] then []
    else
      var front, a := apps[..|apps| - 1], apps[|apps| - 1];
      assert forall x :: x in apps <==> x in front || x == a;
      Without(front, some) + if a in some then [] else [a]
  }

  /** What a relay claims to anchor: what it hosts and, if it lies, then everything else hosted anywhere. */
  function Claims(f: Fleet, pk: Key): seq<Text>
    requires pk in f.relays
  {
    var hosting := f.relays[pk].hosting;
    hosting + if f.relays[pk].lying then Without(AppsOf(f, f.order), hosting) else []
  }

  ghost predicate HostedIn(f: Fleet, order: seq<Key>, app: Text) {
    exists pk :: pk in order && f.Hosts(pk, app)
  }

  lemma {:induction false} AppsOfMember(f: Fleet, order: seq<Key>, app: Text)
    ensures app in AppsOf(f, order) <==> HostedIn(f, order, app)
  {
    if order != [] {
      var front, pk := order[..|order| - 1], order[|order| - 1];
      AppsOfMember(f, front, app);
      assert order == front + [pk];
      if HostedIn(f, front, app) {
        var k :| k in front && f.Hosts(k, app);
        assert k in order;
      }
      if f.Hosts(pk, app) {
        assert pk in order;
      }
    }
  }

  /** Honest relays claim what they host; liars claim whatever anybody hosts. */
  lemma ClaimsMember(f: Fleet, pk: Key, app: Text)
    requires f.Valid() && pk in f.relays
    ensures app in Claims(f, pk) <==> f.Hosts(pk, app) || (f.relays[pk].lying && HostedIn(f, f.order, app))
  {
    AppsOfMember(f, f.order, app);
  }

  datatype PeerCatalog = PeerCatalog(pubkey: Key, region: Text, url: Text, operator: Text, apps: seq<Text>)

  function CatalogOf(f: Fleet, pk: Key): PeerCatalog
    requires pk in f.relays
  {
    PeerCatalog(pk, f.relays[pk].region, Url(pk), f.relays[pk].operator, Claims(f, pk))
  }

  /** The catalogs of those of `order` that the viewer sees. */
  function SnapshotOf(f: Fleet, order: seq<Key>, viewer: Key): seq<PeerCatalog> {
    if order == [] then []
    else
      var pk := order[|order| - 1];
      SnapshotOf(f, order[..|order| - 1], viewer) + if Visible(f, viewer, pk) then [CatalogOf(f, pk)] else []
  }

  function Snapshot(f: Fleet, viewer: Key): seq<PeerCatalog> {
    SnapshotOf(f, f.order, viewer)
  }

  lemma {:induction false} SnapshotMembers(f: Fleet, order: seq<Key>, viewer: Key, c: PeerCatalog)
    ensures c in SnapshotOf(f, order, viewer) <==>
            c.pubkey in order && Visible(f, viewer, c.pubkey) && c == CatalogOf(f, c.pubkey)
  {
    if order != [] {
      var front, pk := order[..|order| - 1], order[|order| - 1];
      SnapshotMembers(f, front, viewer, c);
      assert order == front + [pk];
    }
  }

  // ---------------------------------------------------------------- what a viewer can verify

  /** The proof fetcher answers ok. */
  predicate ProofOk(f: Fleet, url: Text, app: Text) {
    var pk := KeyOfUrl(url);
    pk in f.relays && f.relays[pk].online && app in f.relays[pk].hosting
  }

  /** The peers a proof-checking viewer counts for an app: those in its snapshot that claim it
      and whose proof, fetched from the url in the snapshot, is good. */
  ghost function Verified(f: Fleet, viewer: Key, app: Text): set<Key> {
    set c | c in Snapshot(f, viewer) && app in c.apps && ProofOk(f, c.url, app) :: c.pubkey
  }

  /** The visible online peers that do host it. */
  ghost function Truth(f: Fleet, viewer: Key, app: Text): set<Key> {
    set pk | pk in f.relays && Visible(f, viewer, pk) && f.Hosts(pk, app)
  }

  /** Whatever the keys: a peer is counted exactly when it is seen, claims the app, and whoever its url leads to
      is online and hosts it. */
  lemma VerifiedMember(f: Fleet, viewer: Key, app: Text, pk: Key)
    requires f.Valid()
    ensures pk in Verified(f, viewer, app) <==>
            && Visible(f, viewer, pk) && app in Claims(f, pk)
            && var host := KeyOfUrl(Url(pk)); host in f.relays && f.relays[host].online && app in f.relays[host].hosting
  {
    if pk in Verified(f, viewer, app) {
      var c :| c in Snapshot(f, viewer) && app in c.apps && ProofOk(f, c.url, app) && c.pubkey == pk;
      SnapshotMembers(f, f.order, viewer, c);
    }
    if Visible(f, viewer, pk) && app in Claims(f, pk) && ProofOk(f, Url(pk), app) {
      var c := CatalogOf(f, pk);
      SnapshotMembers(f, f.order, viewer, c);
      assert c.pubkey in Verified(f, viewer, app);
    }
  }

  /** About a relay with a url-safe key nobody is deceived, whatever the other relays are called. */
  lemma SafeKeyVerified(f: Fleet, viewer: Key, app: Text, pk: Key)
    requires f.Valid() && UrlSafe(pk)
    ensures pk in Verified(f, viewer, app) <==> pk in Truth(f, viewer, app)
  {
    VerifiedMember(f, viewer, app, pk);
    UrlRoundTrip(pk);
  }

  ghost predicate AllSafe(f: Fleet) {
    forall pk | pk in f.relays :: UrlSafe(pk)
  }

  /** Liars add nobody and hide nobody. */
  lemma VerifiedIsTruth(f: Fleet, viewer: Key, app: Text)
    requires f.Valid() && AllSafe(f)
    ensures Verified(f, viewer, app) == Truth(f, viewer, app)
  {
    forall pk ensures pk in Verified(f, viewer, app) <==> pk in Truth(f, viewer, app) {
      VerifiedMember(f, viewer, app, pk);
      if pk in f.relays {
        SafeKeyVerified(f, viewer, app, pk);
      }
    }
  }

  ghost function Replicas(f: Fleet, app: Text): set<Key> {
    set pk | pk in f.relays && f.relays[pk].online && f.Hosts(pk, app)
  }

  lemma TruthIsReplicas(f: Fleet, viewer: Key, app: Text)
    requires f.partitions.None?
    ensures |Truth(f, viewer, app)| == |Replicas(f, app)| - if viewer in Replicas(f, app) then 1 else 0
  {
    assert Truth(f, viewer, app) == Replicas(f, app) - {viewer};
    if viewer !in Replicas(f, app) {
      assert Replicas(f, app) - {viewer} == Replicas(f, app);
    }
  }

  /** With no partition the verified count is the number of replicas but the viewer itself. */
  lemma VerifiedCount(f: Fleet, viewer: Key, app: Text)
    requires f.Valid() && AllSafe(f) && f.partitions.None?
    ensures |Verified(f, viewer, app)| == |Replicas(f, app)| - if viewer in Replicas(f, app) then 1 else 0
  {
    VerifiedIsTruth(f, viewer, app);
    TruthIsReplicas(f, viewer, app);
  }

  // ---------------------------------------------------------------- who is seen across a partition

  /** The snapshot has a catalog of the relay. */
  ghost predicate Listed(f: Fleet, viewer: Key, pk: Key) {
    exists c :: c in Snapshot(f, viewer) && c.pubkey == pk
  }

  lemma ListedIsVisible(f: Fleet, viewer: Key, pk: Key)
    requires f.Valid()
    ensures Listed(f, viewer, pk) <==> Visible(f, viewer, pk)
  {
    if Listed(f, viewer, pk) {
      var c :| c in Snapshot(f, viewer) && c.pubkey == pk;
      SnapshotMembers(f, f.order, viewer, c);
    }
    if Visible(f, viewer, pk) {
      SnapshotMembers(f, f.order, viewer, CatalogOf(f, pk));
      assert CatalogOf(f, pk).pubkey == pk;
    }
  }

  /** Nobody is shown itself or a relay that is offline; besides these a viewer sees just its own side of a partition,
      the first that names it, and everybody if there is no partition or none of the sides names it. */
  lemma ListedIff(f: Fleet, viewer: Key, pk: Key)
    requires f.Valid()
    ensures f.partitions.None? ==>
              (Listed(f, viewer, pk) <==> pk in f.relays && pk != viewer && f.relays[pk].online)
    ensures f.partitions.Some? && viewer in f.partitions.value.a ==>
              (Listed(f, viewer, pk) <==> pk in f.relays && pk != viewer && f.relays[pk].online && pk in f.partitions.value.a)
    ensures f.partitions.Some? && viewer !in f.partitions.value.a && viewer in f.partitions.value.b ==>
              (Listed(f, viewer, pk) <==> pk in f.relays && pk != viewer && f.relays[pk].online && pk in f.partitions.value.b)
    ensures f.partitions.Some? && viewer !in f.partitions.value.a && viewer !in f.partitions.value.b ==>
              (Listed(f, viewer, pk) <==> pk in f.relays && pk != viewer && f.relays[pk].online)
  {
    ListedIsVisible(f, viewer, pk);
  }

  /** So with disjoint sides nobody is seen or verified across the cut. */
  lemma CutRespected(f: Fleet, viewer: Key, pk: Key, app: Text, sides: Partition)
    requires f.Valid() && f.partitions == Some(sides) && sides.a !! sides.b
    requires (viewer in sides.a && pk in sides.b) || (viewer in sides.b && pk in sides.a)
    ensures !Listed(f, viewer, pk) && pk !in Verified(f, viewer, app) && pk !in Truth(f, viewer, app)
  {
    ListedIff(f, viewer, pk);
    ListedIsVisible(f, viewer, pk);
    VerifiedMember(f, viewer, app, pk);
  }

  /** And on one side every online host with a url-safe key is verified. */
  lemma SideVerified(f: Fleet, viewer: Key, pk: Key, app: Text, sides: Partition)
    requires f.Valid() && f.partitions == Some(sides) && viewer in sides.a && UrlSafe(pk)
    ensures pk in Verified(f, viewer, app) <==>
            pk in f.relays && pk != viewer && f.relays[pk].online && pk in sides.a && app in f.relays[pk].hosting
  {
    ListedIff(f, viewer, pk);
    ListedIsVisible(f, viewer, pk);
    SafeKeyVerified(f, viewer, app, pk);
  }

  /** A listed catalog carries the relay's own region, url and operator, and its hosted apps first. */
  lemma CatalogFields(f: Fleet, viewer: Key, c: PeerCatalog)
    requires f.Valid() && c in Snapshot(f, viewer)
    ensures c.pubkey in f.relays
    ensures var r := f.relays[c.pubkey];
            && c.region == r.region && c.operator == r.operator && c.url == Url(c.pubkey)
            && r.hosting <= c.apps && (!r.lying ==> c.apps == r.hosting)
  {
    SnapshotMembers(f, f.order, viewer, c);
  }

  lemma KnownUrl()
    ensures Url(Ascii("r1")) == Ascii("https://r1.example")
  {
  }

  // ---------------------------------------------------------------- which keys are needed

  ghost predicate ViewIsTruth(f: Fleet) {
    forall viewer, app :: Verified(f, viewer, app) == Truth(f, viewer, app)
  }

  ghost predicate CountIsRight(f: Fleet) {
    f.partitions.None? ==>
      forall viewer, app :: |Verified(f, viewer, app)| == |Replicas(f, app)| - if viewer in Replicas(f, app) then 1 else 0
  }

  const NO_NAME: Text := []

  /** Everybody online and honest, and only `pk` hosts the app. */
  ghost function OneHost(keys: set<Key>, order: seq<Key>, pk: Key, app: Text): Fleet {
    Fleet(order, map k | k in keys :: Node(NO_NAME, NO_NAME, if k == pk then [app] else [], true, false), None)
  }

  lemma {:induction false} Enumeration(keys: set<Key>) returns (order: seq<Key>)
    ensures forall i, j | 0 <= i < j < |order| :: order[i] != order[j]
    ensures forall pk :: pk in order <==> pk in keys
    decreases |keys|
  {
    if keys == {} {
      order := [];
    } else {
      var pk :| pk in keys;
      var front := Enumeration(keys - {pk});
      order := front + [pk];
    }
  }

  /** A host under an unsafe key is hidden: nobody can verify it. */
  lemma UnsafeHostHidden(keys: set<Key>, order: seq<Key>, pk: Key, viewer: Key, app: Text)
    requires OneHost(keys, order, pk, app).Valid() && pk in keys && !UrlSafe(pk) && viewer != pk
    ensures Verified(OneHost(keys, order, pk, app), viewer, app) == {}
    ensures Truth(OneHost(keys, order, pk, app), viewer, app) == {pk}
  {
    var f := OneHost(keys, order, pk, app);
    forall k ensures k !in Verified(f, viewer, app) {
      VerifiedMember(f, viewer, app, k);
      UrlRoundTrip(pk);
    }
  }

  /** Exactly the url-safe keys will do: a set of keys is safe to use in every state if and only if all of them are. */
  lemma SafeKeysIff(keys: set<Key>)
    ensures (forall f: Fleet | f.Valid() && f.relays.Keys == keys :: ViewIsTruth(f) && CountIsRight(f)) <==>
            (forall pk | pk in keys :: UrlSafe(pk))
  {
    if forall pk | pk in keys :: UrlSafe(pk) {
      forall f: Fleet | f.Valid() && f.relays.Keys == keys ensures ViewIsTruth(f) && CountIsRight(f) {
        SafeKeysSuffice(f);
      }
    } else {
      var pk :| pk in keys && !UrlSafe(pk);
      var order := Enumeration(keys);
      var f, viewer := OneHost(keys, order, pk, NO_NAME), pk + [0];
      assert f.relays.Keys == keys;
      assert |viewer| != |pk|;
      UnsafeHostHidden(keys, order, pk, viewer, NO_NAME);
      assert !ViewIsTruth(f);
    }
  }

  lemma SafeKeysSuffice(f: Fleet)
    requires f.Valid() && AllSafe(f)
    ensures ViewIsTruth(f) && CountIsRight(f)
  {
    forall viewer, app ensures Verified(f, viewer, app) == Truth(f, viewer, app) {
      VerifiedIsTruth(f, viewer, app);
    }
    if f.partitions.None? {
      forall viewer, app
        ensures |Verified(f, viewer, app)| == |Replicas(f, app)| - if viewer in Replicas(f, app) then 1 else 0 {
        VerifiedCount(f, viewer, app);
      }
    }
  }

  /** A liar called ".examplea" is verified for what only "a.example" hosts. */
  lemma LiarVerified(viewer: Key, app: Text)
    requires viewer != EXAMPLE + [97]
    ensures var liar, host := EXAMPLE + [97], [97] + EXAMPLE;
            var f := Fleet([liar, host], map[liar := Node([], [], [], true, true), host := Node([], [], [app], true, false)], None);
            f.Valid() && liar in Verified(f, viewer, app) && liar !in Truth(f, viewer, app)
  {
    var liar, host := EXAMPLE + [97], [97] + EXAMPLE;
    assert liar[0] != host[0];
    var f := Fleet([liar, host], map[liar := Node([], [], [], true, true), host := Node([], [], [app], true, false)], None);
    UnsafeKey();
    assert host in f.order && f.Hosts(host, app);
    ClaimsMember(f, liar, app);
    VerifiedMember(f, viewer, app, liar);
  }

  // ---------------------------------------------------------------- runs

  datatype Step =
    | Join(pk: Key, node: Node)
    | Seed(pk: Key, app: Text)
    | SetOnline(pk: Key, online: bool)
    | SetPartition(p: Option<Partition>)

  /** Only known relays seed or churn; a relay may be added again under a key in use, and then replaces the other. */
  predicate Allowed(f: Fleet, s: Step)
    ensures !Allowed(f, s) <==> (s.Seed? || s.SetOnline?) && s.pk !in f.relays
  {
    match s
    case Join(_, _) => true
    case Seed(pk, _) => pk in f.relays
    case SetOnline(pk, _) => pk in f.relays
    case SetPartition(_) => true
  }

  /** The node addRelay makes: `new Set` drops repeats from the list of hosted apps. */
  function Joined(node: Node): Node {
    node.(hosting := AddApps([], node.hosting))
  }

  /** Nothing else of the node changes, and a list without repeats stays as it is. */
  lemma JoinedIs(node: Node)
    ensures Once(Joined(node).hosting) && (Once(node.hosting) ==> Joined(node) == node)
    ensures Joined(node) == node.(hosting := Joined(node).hosting)
  {
    AddedInOrder([], node.hosting);
  }

  function Next(f: Fleet, s: Step): Fleet
    requires Allowed(f, s)
  {
    match s
    case Join(pk, node) =>
      f.(order := if pk in f.relays then f.order else f.order + [pk], relays := f.relays[pk := Joined(node)])
    case Seed(pk, app) => f.(relays := f.relays[pk := f.relays[pk].(hosting := AddApp(f.relays[pk].hosting, app))])
    case SetOnline(pk, online) => f.(relays := f.relays[pk := f.relays[pk].(online := online)])
    case SetPartition(p) => f.(partitions := p)
  }

  /** What each step changes: seeding adds one app to one relay, churn one relay's state, a partition only who sees whom. */
  lemma StepChanges(f: Fleet, s: Step, pk: Key, app: Text)
    requires f.Valid() && Allowed(f, s) && pk in f.relays && !(s.Join? && s.pk == pk)
    ensures pk in Next(f, s).relays
    ensures var before, after := f.relays[pk], Next(f, s).relays[pk];
            && (app in after.hosting <==> app in before.hosting || (s.Seed? && s.pk == pk && s.app == app))
            && after.online == (if s.SetOnline? && s.pk == pk then s.online else before.online)
            && after.lying == before.lying && after.region == before.region && after.operator == before.operator
    ensures Next(f, s).partitions == if s.SetPartition? then s.p else f.partitions
  {
  }

  ghost predicate IsRun(f: Fleet, steps: seq<Step>, g: Fleet)
    decreases |steps|
  {
    if steps == [] then f == g else Allowed(f, steps[0]) && IsRun(Next(f, steps[0]), steps[1..], g)
  }

  /** Nobody has left, and nobody has stopped hosting anything. */
  ghost predicate Grows(f: Fleet, g: Fleet) {
    && f.order <= g.order
    && forall pk, app | f.Hosts(pk, app) :: g.Hosts(pk, app)
  }

  /** All keys that ever joined are url-safe. */
  predicate SafeJoins(steps: seq<Step>) {
    forall i | 0 <= i < |steps| :: steps[i].Join? ==> UrlSafe(steps[i].pk)
  }

  /** A relay that is added again hosts at least what the one it replaces did. */
  predicate KeepsHosting(f: Fleet, s: Step) {
    s.Join? && s.pk in f.relays ==> forall app | app in f.relays[s.pk].hosting :: app in s.node.hosting
  }

  /** Every step but a poorer replacement lets hosting grow. */
  lemma GrowsIff(f: Fleet, s: Step)
    requires f.Valid() && Allowed(f, s)
    ensures Grows(f, Next(f, s)) <==> KeepsHosting(f, s)
  {
    var g := Next(f, s);
    assert f.order <= g.order;
    if s.Join? && s.pk in f.relays && Grows(f, g) {
      forall app | app in f.relays[s.pk].hosting ensures app in s.node.hosting {
        assert f.Hosts(s.pk, app);
        assert g.Hosts(s.pk, app);
      }
    }
  }

  lemma StepKeeps(f: Fleet, s: Step)
    requires f.Valid() && Allowed(f, s)
    ensures Next(f, s).Valid()
    ensures AllSafe(Next(f, s)) <==> AllSafe(f) && (s.Join? ==> UrlSafe(s.pk))
  {
    var g := Next(f, s);
    assert forall pk | pk in f.relays :: pk in g.relays;
    if s.Join? {
      assert s.pk in g.relays;
    }
  }

  ghost predicate AllKeepHosting(f: Fleet, steps: seq<Step>)
    decreases |steps|
  {
    steps == [] || (Allowed(f, steps[0]) ==> KeepsHosting(f, steps[0]) && AllKeepHosting(Next(f, steps[0]), steps[1..]))
  }

  lemma {:induction false} RunKeeps(f: Fleet, steps: seq<Step>, g: Fleet)
    requires f.Valid() && IsRun(f, steps, g)
    ensures g.Valid()
    ensures AllSafe(g) <==> AllSafe(f) && SafeJoins(steps)
    decreases |steps|
  {
    if steps != [] {
      StepKeeps(f, steps[0]);
      RunKeeps(Next(f, steps[0]), steps[1..], g);
      assert steps == [steps[0]] + steps[1..];
      assert forall i | 0 <= i < |steps| - 1 :: steps[1..][i] == steps[i + 1];
    }
  }

  lemma {:induction false} RunGrows(f: Fleet, steps: seq<Step>, g: Fleet)
    requires f.Valid() && IsRun(f, steps, g) && AllKeepHosting(f, steps)
    ensures Grows(f, g)
    decreases |steps|
  {
    if steps != [] {
      GrowsIff(f, steps[0]);
      StepKeeps(f, steps[0]);
      RunGrows(Next(f, steps[0]), steps[1..], g);
    }
  }

  /** In every state a run reaches: relays with url-safe keys are verified exactly when they host, if all keys that
      joined are url-safe then what is verified is the truth, and unless a relay was replaced by one that hosts less,
      hosting has only grown. */
  lemma RunVerified(f: Fleet, steps: seq<Step>, g: Fleet, viewer: Key, app: Text)
    requires f.Valid() && IsRun(f, steps, g)
    ensures g.Valid()
    ensures forall pk | UrlSafe(pk) :: pk in Verified(g, viewer, app) <==> pk in Truth(g, viewer, app)
    ensures AllSafe(f) && SafeJoins(steps) ==> Verified(g, viewer, app) == Truth(g, viewer, app)
    ensures AllKeepHosting(f, steps) ==> Grows(f, g)
  {
    RunKeeps(f, steps, g);
    forall pk | UrlSafe(pk) ensures pk in Verified(g, viewer, app) <==> pk in Truth(g, viewer, app) {
      SafeKeyVerified(g, viewer, app, pk);
    }
    if AllSafe(f) && SafeJoins(steps) {
      VerifiedIsTruth(g, viewer, app);
    }
    if AllKeepHosting(f, steps) {
      RunGrows(f, steps, g);
    }
  }

  // ---------------------------------------------------------------- the World object

  class World {
    var order: seq<Key>
    var relays: map<Key, Node>
    var partitions: Option<Partition>

    ghost function Value(): Fleet
      reads this
    {
      Fleet(order, relays, partitions)
    }

    constructor ()
      ensures Value() == Fleet([], map[], None) && Value().Valid()
    {
      order, relays, partitions := [], map[], None;
    }

    /** A key that is already there keeps its place in the order. */
    method AddRelay(pk: Key, node: Node)
      requires Value().Valid()
      modifies this
      ensures Value().Valid()
      ensures Value() == Next(old(Value()), Join(pk, node))
    {
      if pk !in relays { order := order + [pk]; }
      relays := relays[pk := Joined(node)];
    }

    method SeedApp(pk: Key, app: Text)
      requires Value().Valid() && pk in relays
      modifies this
      ensures Value().Valid() && Value() == Next(old(Value()), Seed(pk, app))
    {
      relays := relays[pk := relays[pk].(hosting := AddApp(relays[pk].hosting, app))];
    }

    /** The nested loop that collects every app hosted anywhere. */
    method CollectApps() returns (apps: seq<Text>)
      requires Value().Valid()
      ensures apps == AppsOf(Value(), order)
    {
      apps := [];
      for i := 0 to |order|
        invariant apps == AppsOf(Value(), order[..i])
      {
        apps := AddAll(apps, relays[order[i]].hosting);
        assert order[..i + 1][..i] == order[..i];
      }
      assert order[..|order|] == order;
    }

    method ClaimedBy(pk: Key) returns (apps: seq<Text>)
      requires Value().Valid() && pk in relays
      ensures apps == Claims(Value(), pk)
    {
      apps := relays[pk].hosting;
      if relays[pk].lying {
        var all := CollectApps();
        var others := Others(all, apps);
        apps := apps + others;
      }
    }

    method SnapshotFor(viewer: Key) returns (out: seq<PeerCatalog>)
      requires Value().Valid()
      ensures out == Snapshot(Value(), viewer)
    {
      out := [];
      for i := 0 to |order|
        invariant out == SnapshotOf(Value(), order[..i], viewer)
      {
        var pk := order[i];
        if Visible(Fleet(order, relays, partitions), viewer, pk) {
          var apps := ClaimedBy(pk);
          out := out + [PeerCatalog(pk, relays[pk].region, Url(pk), relays[pk].operator, apps)];
        }
        assert order[..i + 1][..i] == order[..i];
      }
      assert order[..|order|] == order;
    }

    method CountReplicas(app: Text) returns (n: nat)
      requires Value().Valid()
      ensures n == |Replicas(Value(), app)|
    {
      n := 0;
      for i := 0 to |order|
        invariant n == |ReplicasIn(Value(), order[..i], app)|
      {
        ReplicasSnoc(Value(), i, app);
        if relays[order[i]].online && app in relays[order[i]].hosting { n := n + 1; }
      }
      ReplicasAll(Value(), app);
    }
  }

  /** The replicas among the relays of `order`. */
  ghost function ReplicasIn(f: Fleet, order: seq<Key>, app: Text): set<Key> {
    set pk | pk in order && pk in Replicas(f, app)
  }

  lemma ReplicasSnoc(f: Fleet, i: nat, app: Text)
    requires f.Valid() && i < |f.order|
    ensures |ReplicasIn(f, f.order[..i + 1], app)| ==
            |ReplicasIn(f, f.order[..i], app)| + if f.order[i] in Replicas(f, app) then 1 else 0
    ensures f.order[i] in f.relays
  {
    var pk := f.order[i];
    assert f.order[..i + 1] == f.order[..i] + [pk];
    assert ReplicasIn(f, f.order[..i + 1], app) == ReplicasIn(f, f.order[..i], app) + if pk in Replicas(f, app) then {pk} else {};
    assert pk !in f.order[..i];
  }

  lemma ReplicasAll(f: Fleet, app: Text)
    requires f.Valid()
    ensures f.order[..|f.order|] == f.order && ReplicasIn(f, f.order, app) == Replicas(f, app)
  {
  }

  method AddAll(apps: seq<Text>, hosting: seq<Text>) returns (r: seq<Text>)
    ensures r == AddApps(apps, hosting)
  {
    r := apps;
    for j := 0 to |hosting|
      invariant r == AddApps(apps, hosting[..j])
    {
      assert hosting[..j + 1][..j] == hosting[..j];
      if hosting[j] !in r { r := r + [hosting[j]]; }
    }
    assert hosting[..|hosting|] == hosting;
  }

  method Others(all: seq<Text>, hosting: seq<Text>) returns (apps: seq<Text>)
    ensures apps == Without(all, hosting)
  {
    apps := [];
    for i := 0 to |all|
      invariant apps == Without(all[..i], hosting)
    {
      assert all[..i + 1][..i] == all[..i];
      if all[i] !in hosting { apps := apps + [all[i]]; }
    }
    assert all[..|all|] == all;
  }
}
