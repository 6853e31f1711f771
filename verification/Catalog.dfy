/** scripts/publish-catalog-bee.js: reading the paged catalog and the digest over its keys. */
module Catalog {
  import opened Wrappers
  import opened Texts

  const MAX_PAGES := 100000

  datatype Result<+T> = Ok(value: T) | HttpError(status: int) | Runaway

  /** The parts of one /catalog.json reply that fetchCatalog looks at; no relay key is []. */
  datatype Reply<+E> = Reply(ok: bool, status: int, relayKey: Text, entries: Option<seq<E>>, apps: Option<seq<E>>, hasNext: bool)
  {
    function Got(): Listing<E> {
      Listing(if entries.Some? then entries.value else if apps.Some? then apps.value else [], relayKey)
    }
  }

  datatype Listing<+E> = Listing(entries: seq<E>, relayKey: Text)
  {
    /** This and then a later listing; the later relay key counts if there is one. */
    function Then(later: Listing<E>): Listing<E> {
      Listing(entries + later.entries, if later.relayKey != [] then later.relayKey else relayKey)
    }
  }

  // ---------------------------------------------------------------- paging

  /** What fetching from `page` on comes to. */
  function Fetched<E>(server: nat -> Reply<E>, page: nat): Result<Listing<E>>
    requires 1 <= page <= MAX_PAGES
    decreases MAX_PAGES - page
  {
    var r := server(page);
    if !r.ok then HttpError(r.status)
    else if !r.hasNext then Ok(r.Got())
    else if page + 1 > MAX_PAGES then Runaway
    else Prefixed(r.Got(), Fetched(server, page + 1))
  }

  /** What is collected so far in front of what is still to come. */
  function Prefixed<E>(listing: Listing<E>, rest: Result<Listing<E>>): Result<Listing<E>> {
    if rest.Ok? then Ok(listing.Then(rest.value)) else rest
  }

  method FetchCatalog<E>(server: nat -> Reply<E>) returns (result: Result<Listing<E>>)
    ensures result == Fetched(server, 1)
  {
    var entries: seq<E> := [];
    var relayKey: Text := [];
    var page := 1;
    PrefixedNothing(Fetched(server, 1));
    while true
      invariant 1 <= page <= MAX_PAGES
      invariant Fetched(server, 1) == Prefixed(Listing(entries, relayKey), Fetched(server, page))
      decreases MAX_PAGES - page
    {
      var r := server(page);
      if !r.ok { return HttpError(r.status); }
      ghost var before := Listing(entries, relayKey);
      if r.relayKey != [] { relayKey := r.relayKey; }
      entries := entries + r.Got().entries;
      if !r.hasNext { return Ok(Listing(entries, relayKey)); }
      page := page + 1;
      if page > MAX_PAGES { return Runaway; }
      PrefixedTwice(before, r.Got(), Fetched(server, page));
    }
  }

  lemma PrefixedNothing<E>(rest: Result<Listing<E>>)
    ensures Prefixed(Listing([], []), rest) == rest
  {
    if rest.Ok? {
      assert [] + rest.value.entries == rest.value.entries;
    }
  }

  lemma PrefixedTwice<E>(a: Listing<E>, b: Listing<E>, rest: Result<Listing<E>>)
    ensures Prefixed(a, Prefixed(b, rest)) == Prefixed(a.Then(b), rest)
  {
    if rest.Ok? {
      assert a.entries + (b.entries + rest.value.entries) == (a.entries + b.entries) + rest.value.entries;
    }
  }

  /** A relay with a fixed key and catalog, served in pages of `size`: under `entries`, or, when it is an older relay,
      under `apps`. */
  function PagedServer<E>(key: Text, catalog: seq<E>, size: nat, typed: bool): nat -> Reply<E>
    requires size >= 1
  {
    (page: nat) => PageOf(key, catalog, size, typed, page)
  }

  function PageOf<E>(key: Text, catalog: seq<E>, size: nat, typed: bool, page: nat): Reply<E>
    requires size >= 1
  {
    var n := |catalog|;
    var start := Min(if page == 0 then 0 else (page - 1) * size, n);
    var end := Min(page * size, n);
    var got := if 0 <= start <= end then catalog[start..end] else [];
    Reply(true, 200, key, if typed then Some(got) else None, if typed then None else Some(got), page * size < n)
  }

  lemma PageBounds<E>(key: Text, catalog: seq<E>, size: nat, typed: bool, page: nat, start: nat)
    requires size >= 1 && page >= 1 && start == (page - 1) * size <= |catalog|
    ensures start + size == page * size
    ensures var r := PagedServer(key, catalog, size, typed)(page);
            && r.ok && (r.hasNext <==> start + size < |catalog|)
            && r.Got() == Listing(if start + size < |catalog| then catalog[start..start + size] else catalog[start..], key)
  {
    assert page * size == (page - 1) * size + size;
  }

  lemma {:induction false} FetchedFrom<E>(key: Text, catalog: seq<E>, size: nat, typed: bool, page: nat, start: nat)
    requires size >= 1 && 1 <= page <= MAX_PAGES && start == (page - 1) * size <= |catalog|
    ensures Fetched(PagedServer(key, catalog, size, typed), page)
         == if |catalog| <= MAX_PAGES * size then Ok(Listing(catalog[start..], key)) else Runaway
    decreases MAX_PAGES - page
  {
    PageBounds(key, catalog, size, typed, page, start);
    LastPage(page, size);
    var next := start + size;
    if next < |catalog| && page < MAX_PAGES {
      FetchedFrom(key, catalog, size, typed, page + 1, next);
      FetchedStep(PagedServer(key, catalog, size, typed), page, Listing(catalog, key), start, next, |catalog| <= MAX_PAGES * size);
    }
  }

  /** One more page in front of what the later pages come to. */
  lemma FetchedStep<E>(server: nat -> Reply<E>, page: nat, all: Listing<E>, start: nat, next: nat, fits: bool)
    requires 1 <= page < MAX_PAGES && start <= next <= |all.entries|
    requires server(page).ok && server(page).hasNext
    requires server(page).Got() == Listing(all.entries[start..next], all.relayKey)
    requires Fetched(server, page + 1) == if fits then Ok(Listing(all.entries[next..], all.relayKey)) else Runaway
    ensures Fetched(server, page) == if fits then Ok(Listing(all.entries[start..], all.relayKey)) else Runaway
  {
    assert all.entries[start..next] + all.entries[next..] == all.entries[start..];
  }

  lemma LastPage(page: nat, size: nat)
    requires page <= MAX_PAGES
    ensures page * size <= MAX_PAGES * size
  {
    assert MAX_PAGES * size == page * size + (MAX_PAGES - page) * size;
    assert (MAX_PAGES - page) * size >= 0;
  }

  /** Against a fixed catalog every page size gives back all entries, once each and in order,
      if they fit in 100000 pages, and the runaway error otherwise. */
  lemma PagingRebuilds<E>(key: Text, catalog: seq<E>, size: nat, typed: bool)
    requires size >= 1
    ensures Fetched(PagedServer(key, catalog, size, typed), 1)
         == if |catalog| <= 100000 * size then Ok(Listing(catalog, key)) else Runaway
  {
    FetchedFrom(key, catalog, size, typed, 1, 0);
    assert catalog[0..] == catalog;
  }

  /** The first n pages put together. */
  function Collected<E>(server: nat -> Reply<E>, n: nat): Listing<E> {
    if n == 0 then Listing([], []) else Collected(server, n - 1).Then(server(n).Got())
  }

  lemma {:induction false} FetchedAfter<E>(server: nat -> Reply<E>, n: nat)
    requires n < MAX_PAGES && forall p | 1 <= p <= n :: server(p).ok && server(p).hasNext
    ensures Fetched(server, 1) == Prefixed(Collected(server, n), Fetched(server, n + 1))
  {
    if n == 0 {
      PrefixedNothing(Fetched(server, 1));
    } else {
      FetchedAfter(server, n - 1);
      PrefixedTwice(Collected(server, n - 1), server(n).Got(), Fetched(server, n + 1));
    }
  }

  /** Whatever the relay does: the first page that is not ok is the error, the first without a next one ends the
      listing, and the 100000th with a next one is a runaway. */
  lemma FetchedIs<E>(server: nat -> Reply<E>, n: nat)
    requires 1 <= n <= MAX_PAGES && forall p | 1 <= p < n :: server(p).ok && server(p).hasNext
    ensures !server(n).ok ==> Fetched(server, 1) == HttpError(server(n).status)
    ensures server(n).ok && !server(n).hasNext ==> Fetched(server, 1) == Ok(Collected(server, n))
    ensures server(n).ok && server(n).hasNext && n == 100000 ==> Fetched(server, 1) == Runaway
  {
    FetchedAfter(server, n - 1);
  }

  /** The relay key is the last one that is not empty. */
  lemma {:induction false} LastKeyCounts<E>(server: nat -> Reply<E>, n: nat, p: nat)
    requires 1 <= p <= n && server(p).relayKey != [] && forall q | p < q <= n :: server(q).relayKey == []
    ensures Collected(server, n).relayKey == server(p).relayKey
  {
    if p < n {
      LastKeyCounts(server, n - 1, p);
    }
  }

  // ---------------------------------------------------------------- the key digest

  const KEY_WIDTH := 64

  /** /^[0-9a-f]{64}$/i */
  predicate IsAppKey(t: Text) {
    |t| == KEY_WIDTH && forall i | 0 <= i < |t| :: IsHexUnit(t[i])
  }

  predicate IsLowerKey(t: Text) {
    |t| == KEY_WIDTH && forall i | 0 <= i < |t| :: IsLowerHexUnit(t[i])
  }

  function LowerHex(t: Text): (r: Text)
    requires IsAppKey(t)
    ensures IsLowerKey(r)
  {
    seq(|t|, i requires 0 <= i < |t| => LowerHexUnit(t[i]))
  }

  /** A catalog entry, as far as its appKey goes; None when it is not a string. */
  type Entry = Option<Text>

  predicate HasKey(e: Entry) {
    e.Some? && IsAppKey(e.value)
  }

  /** The lower-cased valid keys, in catalog order, repeats included. */
  function AppKeys(entries: seq<Entry>): (keys: seq<Text>)
    ensures forall k | k in keys :: IsLowerKey(k)
  {
    if entries == [] then []
    else
      var e := entries[|entries| - 1];
      AppKeys(entries[..|entries| - 1]) + if HasKey(e) then [LowerHex(e.value)] else []
  }

  /** `v` is the hex digit u, in small letters or capitals. */
  predicate Spells(u: Unit, v: Unit) {
    (48 <= u <= 57 || 97 <= u <= 102) && (v == u || (97 <= u <= 102 && v == u - 32))
  }

  predicate SpelledBy(k: Text, e: Entry) {
    e.Some? && |k| == |e.value| == 64 && forall i | 0 <= i < 64 :: Spells(k[i], e.value[i])
  }

  lemma SpelledIff(k: Text, e: Entry)
    ensures SpelledBy(k, e) <==> HasKey(e) && k == LowerHex(e.value)
  {
    if HasKey(e) {
      assert forall i | 0 <= i < 64 :: Spells(LowerHex(e.value)[i], e.value[i]);
      if SpelledBy(k, e) {
        assert forall i | 0 <= i < 64 :: k[i] == LowerHex(e.value)[i];
      }
    }
  }

  /** The keys are those that some entry spells with 64 hex digits, in small letters. */
  lemma {:induction false} AppKeysIff(entries: seq<Entry>, k: Text)
    ensures k in AppKeys(entries) <==> exists i :: 0 <= i < |entries| && SpelledBy(k, entries[i])
  {
    if entries != [] {
      var front, e := entries[..|entries| - 1], entries[|entries| - 1];
      AppKeysIff(front, k);
      SpelledIff(k, e);
      assert forall i | 0 <= i < |front| :: front[i] == entries[i];
      if k in AppKeys(front) {
        var i :| 0 <= i < |front| && SpelledBy(k, front[i]);
        assert SpelledBy(k, entries[i]);
      }
    }
  }

  function Insert(k: Text, sorted: seq<Text>): (r: seq<Text>)
    ensures multiset(r) == multiset(sorted) + multiset{k}
  {
    if sorted == [] || Leq(k, sorted[0]) then [k] + sorted
    else
      assert sorted == [sorted[0]] + sorted[1..];
      [sorted[0]] + Insert(k, sorted[1..])
  }

  /** appKeys.sort() */
  function Sort(keys: seq<Text>): (r: seq<Text>)
    ensures multiset(r) == multiset(keys)
  {
    if keys == [] then []
    else
      assert keys == [keys[0]] + keys[1..];
      Insert(keys[0], Sort(keys[1..]))
  }

  ghost predicate Sorted(s: seq<Text>) {
    forall i, j | 0 <= i < j < |s| :: Leq(s[i], s[j])
  }

  lemma {:induction false} InsertSorted(k: Text, s: seq<Text>)
    requires Sorted(s)
    ensures Sorted(Insert(k, s))
  {
    if s == [] {
    } else if Leq(k, s[0]) {
      forall j | 0 <= j < |s| ensures Leq(k, s[j]) {
        LeqTotal(s[0], s[0]);
        assert Leq(s[0], s[j]);
        LeqTransitive(k, s[0], s[j]);
      }
    } else {
      InsertSorted(k, s[1..]);
      LeqTotal(k, s[0]);
      var t := Insert(k, s[1..]);
      forall j | 0 <= j < |t| ensures Leq(s[0], t[j]) {
        assert t[j] in multiset(t);
        assert t[j] == k || t[j] in s[1..];
      }
    }
  }

  lemma {:induction false} SortSorted(keys: seq<Text>)
    ensures Sorted(Sort(keys))
  {
    if keys != [] {
      SortSorted(keys[1..]);
      InsertSorted(keys[0], Sort(keys[1..]));
    }
  }

  /** Each sorted key equals the next or comes before it: it is a beginning of it, or smaller at the first difference. */
  lemma SortInOrder(keys: seq<Text>, i: nat, j: nat)
    requires i < j < |Sort(keys)|
    ensures Sort(keys)[i] == Sort(keys)[j] || ComesBefore(Sort(keys)[i], Sort(keys)[j])
  {
    SortSorted(keys);
    LeqIff(Sort(keys)[i], Sort(keys)[j]);
  }

  lemma HeadLeast(a: seq<Text>, x: Text)
    requires Sorted(a) && x in a
    ensures Leq(a[0], x)
  {
    LeqTotal(x, x);
    var i :| 0 <= i < |a| && a[i] == x;
  }

  lemma TailMultiset(a: seq<Text>)
    requires a != []
    ensures multiset(a[1..]) == multiset(a) - multiset{a[0]}
  {
    assert a == [a[0]] + a[1..];
  }

  lemma SortedHead(a: seq<Text>, b: seq<Text>)
    requires Sorted(a) && Sorted(b) && multiset(a) == multiset(b) && a != []
    ensures b != [] && a[0] == b[0] && multiset(a[1..]) == multiset(b[1..])
  {
    assert a[0] in multiset(b);
    assert b[0] in multiset(a);
    HeadLeast(b, a[0]);
    HeadLeast(a, b[0]);
    LeqTotal(a[0], b[0]);
    TailMultiset(a);
    TailMultiset(b);
  }

  lemma {:induction false} SortedUnique(a: seq<Text>, b: seq<Text>)
    requires Sorted(a) && Sorted(b) && multiset(a) == multiset(b)
    ensures a == b
    decreases |a|
  {
    if a == [] {
      assert |b| == |multiset(b)| == 0;
    } else {
      SortedHead(a, b);
      SortedUnique(a[1..], b[1..]);
      assert a == [a[0]] + a[1..] && b == [b[0]] + b[1..];
    }
  }

  predicate IsLowerHex(t: Text) {
    |t| % 2 == 0 && forall i | 0 <= i < |t| :: IsLowerHexUnit(t[i])
  }

  /** b4a.from(text, 'hex') */
  function HexBytes(t: Text): (b: seq<Byte>)
    requires IsLowerHex(t)
    ensures |b| == |t| / 2
  {
    if t == [] then [] else [16 * HexUnitValue(t[0]) + HexUnitValue(t[1])] + HexBytes(t[2..])
  }

  /** b4a.toString(bytes, 'hex') */
  function BytesHex(b: seq<Byte>): Text {
    if b == [] then [] else [HexDigit(b[0] / 16), HexDigit(b[0] % 16)] + BytesHex(b[1..])
  }

  lemma ByteHexInverse(u: Unit, v: Unit)
    requires IsLowerHexUnit(u) && IsLowerHexUnit(v)
    ensures var b := 16 * HexUnitValue(u) + HexUnitValue(v); HexDigit(b / 16) == u && HexDigit(b % 16) == v
  {
  }

  lemma BytesHexCons(b: Byte, more: seq<Byte>)
    ensures BytesHex([b] + more) == [HexDigit(b / 16), HexDigit(b % 16)] + BytesHex(more)
  {
    assert ([b] + more)[1..] == more;
  }

  lemma {:induction false} BytesHexInverse(t: Text)
    requires IsLowerHex(t)
    ensures BytesHex(HexBytes(t)) == t
    decreases |t|
  {
    if t != [] {
      BytesHexInverse(t[2..]);
      ByteHexInverse(t[0], t[1]);
      BytesHexCons(16 * HexUnitValue(t[0]) + HexUnitValue(t[1]), HexBytes(t[2..]));
      assert t == [t[0], t[1]] + t[2..];
    }
  }

  function Join(keys: seq<Text>): (t: Text)
    requires forall k | k in keys :: IsLowerKey(k)
    ensures |t| == KEY_WIDTH * |keys| && IsLowerHex(t)
  {
    if keys == [] then []
    else
      assert IsLowerKey(keys[0]);
      keys[0] + Join(keys[1..])
  }

  lemma {:induction false} JoinInjective(a: seq<Text>, b: seq<Text>)
    requires (forall k | k in a :: IsLowerKey(k)) && (forall k | k in b :: IsLowerKey(k))
    requires Join(a) == Join(b)
    ensures a == b
  {
    assert |a| == |b|;
    if a != [] {
      assert a[0] == Join(a)[..KEY_WIDTH] && b[0] == Join(b)[..KEY_WIDTH];
      assert Join(a[1..]) == Join(a)[KEY_WIDTH..] && Join(b[1..]) == Join(b)[KEY_WIDTH..];
      JoinInjective(a[1..], b[1..]);
      assert a == [a[0]] + a[1..] && b == [b[0]] + b[1..];
    }
  }

  lemma SortKeepsWidth(keys: seq<Text>)
    requires forall k | k in keys :: IsLowerKey(k)
    ensures forall k | k in Sort(keys) :: IsLowerKey(k)
  {
    forall k | k in Sort(keys) ensures IsLowerKey(k) {
      assert k in multiset(Sort(keys));
    }
  }

  function Digested(keys: seq<Text>): seq<Byte>
    requires forall k | k in keys :: IsLowerKey(k)
  {
    SortKeepsWidth(keys);
    HexBytes(Join(Sort(keys)))
  }

  /** The bytes hashed into meta.appKeysHash. */
  function KeysPreimage(entries: seq<Entry>): seq<Byte> {
    Digested(AppKeys(entries))
  }

  lemma DigestedEqualIff(a: seq<Text>, b: seq<Text>)
    requires (forall k | k in a :: IsLowerKey(k)) && (forall k | k in b :: IsLowerKey(k))
    ensures Digested(a) == Digested(b) <==> multiset(a) == multiset(b)
  {
    var s, t := Sort(a), Sort(b);
    SortKeepsWidth(a);
    SortKeepsWidth(b);
    SortSorted(a);
    SortSorted(b);
    if multiset(a) == multiset(b) {
      SortedUnique(s, t);
    }
    if Digested(a) == Digested(b) {
      BytesHexInverse(Join(s));
      BytesHexInverse(Join(t));
      JoinInjective(s, t);
    }
  }

  /** They depend on nothing but the multiset of valid lower-cased keys, and determine it. */
  lemma PreimageIsKeyMultiset(a: seq<Entry>, b: seq<Entry>)
    ensures KeysPreimage(a) == KeysPreimage(b) <==> multiset(AppKeys(a)) == multiset(AppKeys(b))
  {
    DigestedEqualIff(AppKeys(a), AppKeys(b));
  }

  // ---------------------------------------------------------------- the bee and its signed meta record

  ghost predicate NoRepeats(keys: seq<Text>) {
    forall i, j | 0 <= i < j < |keys| :: keys[i] != keys[j]
  }

  function KeySet(keys: seq<Text>): set<Text> {
    set k | k in keys
  }

  lemma {:induction false} KeySetSize(keys: seq<Text>)
    ensures |KeySet(keys)| <= |keys|
    ensures |KeySet(keys)| == |keys| <==> NoRepeats(keys)
  {
    if keys == [] {
      assert KeySet(keys) == {};
    } else {
      KeySetSize(keys[1..]);
      KeySetStep(keys[0], keys[1..]);
      assert keys == [keys[0]] + keys[1..];
    }
  }

  lemma KeySetStep(k: Text, rest: seq<Text>)
    ensures |KeySet([k] + rest)| == |KeySet(rest)| + if k in rest then 0 else 1
    ensures NoRepeats([k] + rest) <==> k !in rest && NoRepeats(rest)
  {
    var keys := [k] + rest;
    assert KeySet(keys) == KeySet(rest) + {k};
    if k in rest {
      assert KeySet(keys) == KeySet(rest);
      var j :| 0 <= j < |rest| && rest[j] == k;
      assert keys[0] == keys[j + 1];
    }
    if NoRepeats(keys) {
      forall i, j | 0 <= i < j < |rest| ensures rest[i] != rest[j] {
        assert rest[i] == keys[i + 1] && rest[j] == keys[j + 1];
      }
    }
  }

  /** What the signed record says of the bee: entryCount, and the bytes behind appKeysHash. */
  datatype Meta = Meta(entryCount: nat, preimage: seq<Byte>)

  /** The bee as it stands in the store: a record for each app key, and the signed record beside them. */
  datatype Bee = Bee(records: map<Text, Entry>, meta: Option<Meta>)
  {
    ghost predicate Valid() {
      forall k | k in records :: IsLowerKey(k)
    }
  }

  const NEW_BEE := Bee(map[], None)

  /** The records after batch.put of every entry with a key; the bee of earlier runs is only added to. */
  function Put(records: map<Text, Entry>, entries: seq<Entry>): map<Text, Entry> {
    if entries == [] then records
    else
      var front, e := Put(records, entries[..|entries| - 1]), entries[|entries| - 1];
      if HasKey(e) then front[LowerHex(e.value) := e] else front
  }

  /** One run of the script on the catalog it has read. */
  function Publish(bee: Bee, entries: seq<Entry>): Bee {
    Bee(Put(bee.records, entries), Some(Meta(|AppKeys(entries)|, KeysPreimage(entries))))
  }

  lemma {:induction false} PutKeys(records: map<Text, Entry>, entries: seq<Entry>)
    ensures Put(records, entries).Keys == records.Keys + KeySet(AppKeys(entries))
  {
    if entries == [] {
      assert KeySet(AppKeys(entries)) == {};
    } else {
      var front, e := entries[..|entries| - 1], entries[|entries| - 1];
      PutKeys(records, front);
      if HasKey(e) {
        assert KeySet(AppKeys(front) + [LowerHex(e.value)]) == KeySet(AppKeys(front)) + {LowerHex(e.value)};
      }
    }
  }

  /** The record under a key is the last entry listed with that key, up to letter case. */
  lemma {:induction false} PutLast(records: map<Text, Entry>, entries: seq<Entry>, i: nat)
    requires i < |entries| && HasKey(entries[i])
    requires forall j | i < j < |entries| && HasKey(entries[j]) :: LowerHex(entries[j].value) != LowerHex(entries[i].value)
    ensures var k := LowerHex(entries[i].value); k in Put(records, entries) && Put(records, entries)[k] == entries[i]
  {
    if i < |entries| - 1 {
      PutLast(records, entries[..|entries| - 1], i);
    }
  }

  /** The keys of a bee that the catalog no longer lists. */
  ghost function Stale(bee: Bee, entries: seq<Entry>): set<Text> {
    bee.records.Keys - KeySet(AppKeys(entries))
  }

  /** meta.entryCount is the number of records exactly when the catalog repeats as many keys as it no longer lists. */
  lemma EntryCountIff(bee: Bee, entries: seq<Entry>)
    ensures var keys, after := AppKeys(entries), Publish(bee, entries);
            after.meta.value.entryCount == |after.records| <==> |keys| - |KeySet(keys)| == |Stale(bee, entries)|
  {
    var keys, after := AppKeys(entries), Publish(bee, entries);
    PutKeys(bee.records, entries);
    assert after.records.Keys == KeySet(keys) + Stale(bee, entries);
    assert |after.records| == |after.records.Keys|;
  }

  /** The signed record is that of the bee: it counts its keys, and its digest is theirs. */
  ghost predicate Describes(bee: Bee)
    requires bee.Valid()
  {
    && bee.meta.Some?
    && bee.meta.value.entryCount == |bee.records|
    && exists keys: seq<Text> :: IsListOf(keys, bee) && bee.meta.value.preimage == Digested(keys)
  }

  ghost predicate IsListOf(keys: seq<Text>, bee: Bee)
    requires bee.Valid()
    ensures IsListOf(keys, bee) ==> forall k | k in keys :: IsLowerKey(k)
  {
    NoRepeats(keys) && KeySet(keys) == bee.records.Keys && forall k | k in keys :: k in bee.records
  }

  lemma SameMultiset(a: seq<Text>, b: seq<Text>)
    requires multiset(a) == multiset(b)
    ensures |a| == |b| && KeySet(a) == KeySet(b)
  {
    assert |a| == |multiset(a)| == |multiset(b)| == |b|;
    forall k ensures k in a <==> k in b {
      assert k in a <==> k in multiset(a);
      assert k in b <==> k in multiset(b);
    }
  }

  lemma PublishKeys(bee: Bee, entries: seq<Entry>)
    requires bee.Valid()
    ensures var after := Publish(bee, entries);
            && after.Valid()
            && after.records.Keys == KeySet(AppKeys(entries)) + Stale(bee, entries)
            && |after.records| == |after.records.Keys|
  {
    PutKeys(bee.records, entries);
    assert forall k | k in AppKeys(entries) :: IsLowerKey(k);
  }

  lemma DescribedIsListed(bee: Bee, entries: seq<Entry>)
    requires bee.Valid() && Publish(bee, entries).Valid() && Describes(Publish(bee, entries))
    ensures NoRepeats(AppKeys(entries)) && KeySet(AppKeys(entries)) == Publish(bee, entries).records.Keys
  {
    var keys, after := AppKeys(entries), Publish(bee, entries);
    var list: seq<Text> :| IsListOf(list, after) && after.meta.value.preimage == Digested(list);
    DigestedEqualIff(keys, list);
    SameMultiset(keys, list);
    KeySetSize(list);
    KeySetSize(keys);
  }

  lemma ListedIsDescribed(bee: Bee, entries: seq<Entry>)
    requires bee.Valid() && Publish(bee, entries).Valid()
    requires NoRepeats(AppKeys(entries)) && KeySet(AppKeys(entries)) == Publish(bee, entries).records.Keys
    ensures Describes(Publish(bee, entries))
  {
    var keys, after := AppKeys(entries), Publish(bee, entries);
    KeySetSize(keys);
    assert |after.records| == |after.records.Keys|;
    assert forall k | k in keys :: k in KeySet(keys);
    assert IsListOf(keys, after);
  }

  /** After a run the signed record describes the bee exactly when the catalog lists no key twice and leaves out
      no key the bee had. */
  lemma DescribesIff(bee: Bee, entries: seq<Entry>)
    requires bee.Valid()
    ensures Publish(bee, entries).Valid()
    ensures Describes(Publish(bee, entries)) <==> NoRepeats(AppKeys(entries)) && Stale(bee, entries) == {}
  {
    PublishKeys(bee, entries);
    if Describes(Publish(bee, entries)) {
      DescribedIsListed(bee, entries);
    }
    if NoRepeats(AppKeys(entries)) && Stale(bee, entries) == {} {
      ListedIsDescribed(bee, entries);
    }
  }

  // ---------------------------------------------------------------- run after run on one store

  function After(runs: seq<seq<Entry>>): Bee {
    if runs == [] then NEW_BEE else Publish(After(runs[..|runs| - 1]), runs[|runs| - 1])
  }

  lemma {:induction false} AfterValid(runs: seq<seq<Entry>>)
    ensures After(runs).Valid()
  {
    if runs != [] {
      AfterValid(runs[..|runs| - 1]);
      PublishKeys(After(runs[..|runs| - 1]), runs[|runs| - 1]);
    }
  }

  /** Some run listed the key. */
  ghost predicate EverListed(runs: seq<seq<Entry>>, k: Text) {
    exists i :: 0 <= i < |runs| && k in AppKeys(runs[i])
  }

  lemma EverListedSnoc(runs: seq<seq<Entry>>, k: Text)
    requires runs != []
    ensures EverListed(runs, k) <==> EverListed(runs[..|runs| - 1], k) || k in AppKeys(runs[|runs| - 1])
  {
    var front := runs[..|runs| - 1];
    if EverListed(front, k) {
      var i :| 0 <= i < |front| && k in AppKeys(front[i]);
      assert runs[i] == front[i];
    }
    if EverListed(runs, k) {
      var i :| 0 <= i < |runs| && k in AppKeys(runs[i]);
      assert i < |front| ==> front[i] == runs[i];
    }
  }

  /** The bee has a record for every key that was ever listed. */
  lemma {:induction false} AfterKeys(runs: seq<seq<Entry>>, k: Text)
    ensures k in After(runs).records <==> EverListed(runs, k)
  {
    if runs != [] {
      AfterKeys(runs[..|runs| - 1], k);
      PutKeys(After(runs[..|runs| - 1]).records, runs[|runs| - 1]);
      EverListedSnoc(runs, k);
    }
  }

  /** The last catalog lists every key that was ever listed. */
  ghost predicate LastListsAll(runs: seq<seq<Entry>>)
    requires runs != []
  {
    forall k | EverListed(runs, k) :: k in AppKeys(runs[|runs| - 1])
  }

  lemma NothingStaleIff(runs: seq<seq<Entry>>)
    requires runs != []
    ensures Stale(After(runs[..|runs| - 1]), runs[|runs| - 1]) == {} <==> LastListsAll(runs)
  {
    var front, last := runs[..|runs| - 1], runs[|runs| - 1];
    var stale := Stale(After(front), last);
    forall k ensures k in stale <==> EverListed(runs, k) && k !in AppKeys(last) {
      AfterKeys(front, k);
      EverListedSnoc(runs, k);
    }
    if !LastListsAll(runs) {
      var k :| EverListed(runs, k) && k !in AppKeys(last);
      assert k in stale;
    }
  }

  /** Over any sequence of runs on one store: what was signed last describes the bee exactly when the last catalog
      lists every key that was ever listed, once. */
  lemma RunsDescribedIff(runs: seq<seq<Entry>>)
    requires runs != []
    ensures After(runs).Valid()
    ensures Describes(After(runs)) <==> NoRepeats(AppKeys(runs[|runs| - 1])) && LastListsAll(runs)
  {
    AfterValid(runs[..|runs| - 1]);
    DescribesIff(After(runs[..|runs| - 1]), runs[|runs| - 1]);
    NothingStaleIff(runs);
  }

  // ---------------------------------------------------------------- catalogs that are not described

  function KeyOf(u: Unit): Text {
    seq(KEY_WIDTH, i => u)
  }

  const KEY_A := KeyOf(97)
  const KEY_B := KeyOf(98)

  lemma TwoKeys()
    ensures HasKey(Some(KEY_A)) && LowerHex(KEY_A) == KEY_A
    ensures HasKey(Some(KEY_B)) && LowerHex(KEY_B) == KEY_B
    ensures KEY_A != KEY_B
  {
    assert KEY_A[0] != KEY_B[0];
  }

  lemma OneEntry(k: Text)
    requires HasKey(Some(k)) && LowerHex(k) == k
    ensures AppKeys([Some(k)]) == [k]
  {
    assert [Some(k)][..0] == [];
  }

  lemma TwoEntries(j: Text, k: Text)
    requires HasKey(Some(j)) && LowerHex(j) == j && HasKey(Some(k)) && LowerHex(k) == k
    ensures AppKeys([Some(j), Some(k)]) == [j, k]
    ensures KeySet([j, k]) == {j, k}
  {
    OneEntry(j);
    assert [Some(j), Some(k)][..1] == [Some(j)];
    assert [j, k][0] == j && [j, k][1] == k;
  }

  /** A key listed twice is counted twice and stored once. */
  lemma RepeatedKey()
    ensures var bee := After([[Some(KEY_A), Some(KEY_A)]]);
            bee.meta.value.entryCount == 2 && |bee.records| == 1
  {
    TwoKeys();
    TwoEntries(KEY_A, KEY_A);
    var runs := [[Some(KEY_A), Some(KEY_A)]];
    assert runs[..0] == [];
    PublishKeys(NEW_BEE, runs[0]);
    assert After(runs).records.Keys == {KEY_A};
  }

  lemma AfterTwo(first: seq<Entry>, second: seq<Entry>)
    ensures After([first, second]) == Publish(Publish(NEW_BEE, first), second)
  {
    var one, two := [first], [first, second];
    assert one[..|one| - 1] == [] && two[..|two| - 1] == one;
    assert After(one) == Publish(After([]), first);
    assert After(two) == Publish(After(one), second);
  }

  lemma TwoRuns(first: seq<Entry>, second: seq<Entry>, keys: set<Text>)
    requires keys == KeySet(AppKeys(first)) + KeySet(AppKeys(second))
    ensures var bee := Publish(Publish(NEW_BEE, first), second);
            |bee.records| == |keys| && bee.meta.value.entryCount == |AppKeys(second)|
  {
    PutKeys(map[], first);
    PutKeys(Put(map[], first), second);
    var records := Put(Put(map[], first), second);
    assert records.Keys == keys;
    assert |records| == |records.Keys|;
  }

  /** A key no longer listed stays: after {A, B} and then {A} the bee has two records and the signed count is one. */
  lemma StaleKey()
    ensures var bee := After([[Some(KEY_A), Some(KEY_B)], [Some(KEY_A)]]);
            bee.meta.value.entryCount == 1 && |bee.records| == 2
  {
    TwoKeys();
    TwoEntries(KEY_A, KEY_B);
    OneEntry(KEY_A);
    AfterTwo([Some(KEY_A), Some(KEY_B)], [Some(KEY_A)]);
    assert KeySet([KEY_A, KEY_B]) + KeySet([KEY_A]) == {KEY_A, KEY_B};
    TwoRuns([Some(KEY_A), Some(KEY_B)], [Some(KEY_A)], {KEY_A, KEY_B});
  }

  /** A right count is no proof of a right digest: after {A} and then B twice both are two. */
  lemma CountByChance()
    ensures var bee := After([[Some(KEY_A)], [Some(KEY_B), Some(KEY_B)]]);
            bee.meta.value.entryCount == |bee.records| == 2 && bee.Valid() && !Describes(bee)
  {
    TwoKeys();
    OneEntry(KEY_A);
    TwoEntries(KEY_B, KEY_B);
    var runs := [[Some(KEY_A)], [Some(KEY_B), Some(KEY_B)]];
    AfterTwo(runs[0], runs[1]);
    assert KeySet([KEY_A]) + KeySet([KEY_B, KEY_B]) == {KEY_A, KEY_B};
    TwoRuns(runs[0], runs[1], {KEY_A, KEY_B});
    RunsDescribedIff(runs);
    assert [KEY_B, KEY_B][0] == [KEY_B, KEY_B][1];
  }

  // ---------------------------------------------------------------- the run on the store

  class CatalogStore {
    var records: map<Text, Entry>
    var meta: Option<Meta>

    ghost function Value(): Bee
      reads this
    {
      Bee(records, meta)
    }

    /** The loop that fills the batch, the sort and the signed record. */
    method Run(entries: seq<Entry>)
      modifies this
      ensures Value() == Publish(old(Value()), entries)
    {
      var batch := records;
      var appKeys: seq<Text> := [];
      for i := 0 to |entries|
        invariant appKeys == AppKeys(entries[..i]) && batch == Put(old(records), entries[..i])
      {
        assert entries[..i + 1][..i] == entries[..i];
        var e := entries[i];
        if HasKey(e) {
          var k := LowerHex(e.value);
          appKeys := appKeys + [k];
          batch := batch[k := e];
        }
      }
      assert entries[..|entries|] == entries;
      meta := Some(Meta(|appKeys|, Digested(appKeys)));
      records := batch;
    }
  }
}
