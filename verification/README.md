# P2P-Hiveswarm: a verified model

A Dafny model of the parts of the HiveRelay repository whose whole algorithm is in its scripts and in the HiveWorm
example app, with proofs of what those parts keep, undo and promise over whole runs. `dafny verify dfyconfig.toml`
checks the whole project. Pure logic is modelled by functions; objects updated in place are classes whose methods
are proved against a function on values, and the properties are proved about that function.

| files | what they model |
|---|---|
| `Wrappers`, `Texts`, `JsNumbers` | missing values; JavaScript strings as UTF-16 code units; 32-bit integer operators, whole doubles |
| `Json`, `JsonParser`, `Preimage` | the canonical JSON printer behind catalog signatures, a parser that undoes it, UTF-8, the signed bytes |
| `Catalog` | reading the paged catalog, the digest over its keys, the bee across runs |
| `HiveWorm`, `HiveWormRuns`, `HiveWormClient` | the HiveWorm world: one entry, whole runs, the mutable objects |
| `LiveUpdates`, `NetworkClient` | the HiveWorm live-update client as a machine over browser callbacks, and its object |
| `Mulberry`, `KnownDraws`, `Shuffle`, `Fnv` | the three mulberry32 generators, the Fisher-Yates shuffle, 32-bit FNV-1a |
| `Relays`, `Quorum`, `Custody`, `Simulation` | the blind-custody simulator: keys, quorum selection, witness rounds, counters |
| `Fleet` | the simulated fleet with liars, churn and partitions |
| `Lines` | the incremental line splitter and the captured drive key |
| `Publisher`, `FlagLists` | app ids, keys kept across publishes, list-valued flags |
| `Janitor` | the fleet garbage collector |

Findings, where a promise does not hold on all inputs the code accepts. The members named state the exact condition.

- `canonicalJson` prints `[undefined]` as `[]`, NaN and the infinities as `null`, and -0 as `0`; two values share a text
  exactly when they agree up to these (`JsonParser.PrintEqualIff`). On JSON values it is injective.
- The signed record of the catalog bee counts and digests the keys of the last catalog, repeats included, while the bee stores
  a repeated key once and keeps the records of earlier runs (`Catalog.DescribesIff`, `Catalog.RunsDescribedIff`).
- A HiveWorm worm whose pubkey is the empty string stops nobody, because the scan tests `collidedWith` for truth
  (`HiveWormRuns.ApartIffSafe`, `HiveWormRuns.EmptyKeyOverlaps`).
- A respawn with a configured length below 1 leaves the old body in place, so body and length agree exactly when that
  length is positive (`HiveWorm.SpawnFitsIff`); the run invariants are stated for positive lengths.
- `stop()` leaves a pending reconnect timer and unanswered requests alive, so a `start()` before they are done has two modes
  at once (`LiveUpdates.InvThroughoutIff`, `LiveUpdates.RestartOverlaps`); a throwing `onEntry` makes polling deliver again.
- The unbounded mulberry32 state falls behind the wrapped ones once past 2^53; up to 2^55 it agrees again at no more than two
  draws, told by the first sum past 2^53 modulo 4 (`Mulberry.PastExact`). Beyond, agreement can recur, and in the end the
  generator stands still (`Mulberry.MarchAgreesIff`, `Mulberry.AgreesAgain`, `Mulberry.StandsStill`).
- Relay keys of the simulator can repeat once there are more than 2^32 relays (`Relays.AlwaysDistinctIff`).
- A fleet key with `.example` inside can come back from its url as another key, which hides a host or verifies a liar; the
  verified view is the truth in every state exactly for url-safe keys (`Fleet.UrlRoundTrip`, `Fleet.SafeKeysIff`,
  `Fleet.LiarVerified`).
- The janitor's header promises to keep every entry with an unexpired `retainUntil`; `classify` also asks for `blind === true`
  (`Janitor.RetainedNotKept`). A negative `--cap` is no cap (`Janitor.NegativeCap`). A registry that lists a protected key
  again as a test entry loses it to `--tier1` without review (`Janitor.NeverUnreviewedIff`, `Janitor.DurableSwept`). The header
  also promises not to apply unless every targeted relay is recent; the loop skips old relays one by one
  (`Janitor.RefusesOldIff`, `Janitor.OldBesideRecent`).
- Publishing under an id that every JavaScript object inherits (`constructor`, say) and that is not yet mapped crashes, every
  time (`Publisher.CrashIff`, `Publisher.ConstructorCrashes`, `Publisher.InheritedNeverMapped`).
- A url with "=" in its query is misread by `--api-keys` (`FlagLists.ApiKeysRoundTrip`, `FlagLists.QueryMisread`).

## Model

| member | source | states |
|---|---|---|
| JsonParser.ParsePrint | scripts/publish-catalog-bee.js:85-90 | a recursive-descent parser (strings per section 7 of RFC 8259) reads every printed value back, whatever delimited text follows it |
| JsonParser.PrintEqualIff | scripts/publish-catalog-bee.js:83-90 | two values print the same text if and only if they agree up to what printing drops |
| JsonParser.JsonRoundTrip | scripts/publish-catalog-bee.js:83-90 | on JSON values parsing undoes printing, and equal text means equal value, whatever the key order |
| JsonParser.PrintCollides | scripts/publish-catalog-bee.js:85-90 | outside JSON the printer does collide |
| JsonParser.AssembleLayOut | scripts/publish-catalog-bee.js:86 | a number laid out in any of the four decimal notations determines its digits and exponent |
| JsonParser.ExponentPrintedIff | scripts/publish-catalog-bee.js:86 | a number is printed with an exponent if and only if it lies outside the plain range of Number::toString |
| CanonicalJson.SortedKeysUnique | scripts/publish-catalog-bee.js:88 | however the keys are enumerated, sorting has one outcome, the one printed |
| Texts.LeqIff | scripts/publish-catalog-bee.js:88-89 | the order of keys is: equal, a beginning, or smaller at the first code unit that differs; of two texts exactly one comes first |
| CanonicalJson.MembersInOrder | scripts/publish-catalog-bee.js:88-89 | in the text of an object the member of the key that comes first in that order stands first |
| CanonicalJson.ObjectText | scripts/publish-catalog-bee.js:89 | the text of an object is its members in that order, each a quoted key, a colon and the printed value, joined by commas in braces |
| CanonicalJson.KnownEscapes | scripts/publish-catalog-bee.js:86 | the short escapes, the \u escapes and the units that are printed as they are |
| Preimage.PrintWellFormed | scripts/publish-catalog-bee.js:101 | whatever strings a value holds, its text has no lone surrogate |
| Preimage.DecodeUtf8 | scripts/publish-catalog-bee.js:101 | UTF-8 loses nothing of a text without lone surrogates |
| Preimage.SignedBytesEqualIff | scripts/publish-catalog-bee.js:98-105 | the signed bytes of a 32-byte key and a body are equal if and only if the keys are and the bodies agree; they decode to one pair |
| Preimage.SignedLayout | scripts/publish-catalog-bee.js:98-105 | the key comes first, and what follows decodes to the printed body |
| Preimage.KnownBytes | scripts/publish-catalog-bee.js:101 | known code points in one to four bytes |
| Catalog.FetchCatalog | scripts/publish-catalog-bee.js:124-144 | the paging loop returns the entries and relay key that fetching page after page comes to, for every server, including HTTP errors and the runaway guard |
| Catalog.PagingRebuilds | scripts/publish-catalog-bee.js:124-144 | against a fixed catalog every page size, under `entries` or under `apps`, gives the relay key and all entries once and in order if 100000 pages hold them, and the runaway error otherwise |
| Catalog.FetchedIs | scripts/publish-catalog-bee.js:124-144 | for any relay: the first page that is not ok is the error, the first without a next page ends the listing, the 100000th with one is a runaway |
| Catalog.LastKeyCounts | scripts/publish-catalog-bee.js:134 | the relay key kept is the last one that is not empty |
| Catalog.SortInOrder | scripts/publish-catalog-bee.js:194 | of two sorted keys the earlier is equal, a beginning, or smaller at the first difference |
| Catalog.AppKeysIff | scripts/publish-catalog-bee.js:187-193 | the keys are exactly those that some entry spells with 64 hex digits of either case, in small letters |
| Catalog.PreimageIsKeyMultiset | scripts/publish-catalog-bee.js:187-207 | the bytes behind appKeysHash are equal for two catalogs if and only if the multisets of valid lower-cased keys are |
| Catalog.EntryCountIff | scripts/publish-catalog-bee.js:187-206 | on a bee of earlier runs entryCount is the number of records if and only if the catalog repeats as many keys as it no longer lists |
| Catalog.DescribesIff | scripts/publish-catalog-bee.js:187-213 | the signed count and digest are those of the bee's own keys if and only if the catalog lists no key twice and leaves out none the bee had |
| Catalog.RunsDescribedIff | scripts/publish-catalog-bee.js:14-16 | over any sequence of runs on one store: if and only if the last catalog lists every key ever listed, once |
| Catalog.PutLast | scripts/publish-catalog-bee.js:189-193 | the record under a key is the last entry listed with it, up to letter case |
| Catalog.RepeatedKey | scripts/publish-catalog-bee.js:189-206 | a key listed twice is counted twice and stored once |
| Catalog.StaleKey | scripts/publish-catalog-bee.js:187-213 | after {A, B} and then {A} the bee has two records and the signed count is one |
| Catalog.CountByChance | scripts/publish-catalog-bee.js:187-213 | after {A} and then B twice the count is right and the digest is not |
| Catalog.CatalogStore.Run | scripts/publish-catalog-bee.js:187-213 | the loop over the entries leaves the bee and signed record of that run |
| HiveWorm.CellKeyInjective | examples/hiveworm-app/world.js:52 | the string keys of the food map stand for cells one to one |
| HiveWorm.MassOfMove | examples/hiveworm-app/world.js:142-211 | a move keeps total live length plus food; a fatal one loses exactly the repeated, out-of-bounds and already-food cells of the body |
| HiveWorm.SpawnFitsIff | examples/hiveworm-app/world.js:125-140 | a respawned worm has as many segments as its length if and only if the configured length is positive; otherwise its old body stays |
| HiveWorm.MassOfSpawn | examples/hiveworm-app/world.js:125-140 | a spawn adds the spawn length less the live length it replaces |
| HiveWorm.MassOfRun | examples/hiveworm-app/world.js:106-211 | the ledger of any run: final mass is initial mass plus the spawn length per spawn, less the live length that spawns replace, less what deaths destroy; both losses are never negative |
| HiveWormRuns.BodyIsHistory | examples/hiveworm-app/world.js:125-176 | after any run every spawned worm's body is the window of its length on where its head has been, padded with the spawn cell, and its length is the spawn length plus its meals |
| HiveWormRuns.ReplayedBodyConnected | examples/hiveworm-app/world.js:169-175 | so neighbouring segments coincide or are adjacent |
| HiveWormRuns.ApartIffSafe | examples/hiveworm-app/world.js:125-206 | from live bodies that are apart, an entry keeps them apart if and only if a spawn lands clear and no empty-keyed live worm is in the way of a move |
| HiveWormRuns.ApartRun | examples/hiveworm-app/world.js:125-206 | over any run of safe entries live bodies stay pairwise disjoint |
| HiveWormRuns.SpawnsOnFreeCells | examples/hiveworm-app/world.js:125-206 | without empty pubkeys it is enough that every spawn lands on a cell free of other live worms |
| HiveWormRuns.EmptyKeyOverlaps | examples/hiveworm-app/world.js:158-178 | a live worm with the empty pubkey is run through |
| HiveWormRuns.StepKills | examples/hiveworm-app/world.js:178-206 | an entry kills at most the mover; the recorded killer is another worm alive before and after that holds the fatal cell; food afterwards is the old food and the in-bounds body |
| HiveWormRuns.HeadMoves | examples/hiveworm-app/world.js:142-156 | every accepted move puts the head one cell on, north being up |
| HiveWormRuns.SpawnMeaning | examples/hiveworm-app/world.js:125-140 | a spawn puts a live worm of the configured length on one cell and leaves all else as it was |
| HiveWormRuns.MealsAreReported | examples/hiveworm-app/world.js:142-211 | over any run a live worm is as long as the spawn length plus the Ate hints returned for it since it was spawned |
| HiveWormRuns.ColliderFirst | examples/hiveworm-app/world.js:158-167 | of several worms in the way the one first in map order is named |
| HiveWormClient.WorldObject.ApplyEntry | examples/hiveworm-app/world.js:106-123 | the object updated in place ends in the state, and returns the hint, of the function the properties are about |
| HiveWormClient.WorldObject.FindCollider | examples/hiveworm-app/world.js:158-167 | the nested scan finds the first live worm in the way |
| HiveWormClient.WormObject.SetSegments | examples/hiveworm-app/worm.js:110-143 | an empty list leaves the body as it was |
| LiveUpdates.OneModeOneDelivery | examples/hiveworm-app/network.js:77-174 | after one start, under every interleaving of callbacks, exactly one mode is active until stop; polling has delivered exactly the first lastLogIndex entries, in order and once, if and only if onEntry never threw |
| LiveUpdates.InvStep | examples/hiveworm-app/network.js:77-174 | every callback keeps the invariant and none but start adds activity, so stop only winds down |
| LiveUpdates.PollingForGood | examples/hiveworm-app/network.js:146-174 | polling once entered is never left, over any run without start or stop |
| LiveUpdates.ModeStep | examples/hiveworm-app/network.js:94-174 | while running only two callbacks change the mode: a close leads to a reconnect wait if the socket had opened and else to polling, a reconnect to a socket if one can be constructed and else to polling |
| LiveUpdates.PollingCatchesUp | examples/hiveworm-app/network.js:154-174 | when the poll timer fires and the relay answers, the whole log has been delivered, in order and once |
| LiveUpdates.Restart | examples/hiveworm-app/network.js:77-92 | a start keeps one mode and exact delivery if and only if nothing was under way, or polling goes on and no socket can be constructed |
| LiveUpdates.InvThroughoutIff | examples/hiveworm-app/network.js:77-174 | over any run with any number of starts and stops the invariant holds throughout if and only if every start is such |
| LiveUpdates.ManyStarts | examples/hiveworm-app/network.js:77-174 | so one mode and exactly-once delivery hold across such restarts |
| LiveUpdates.RestartOverlaps | examples/hiveworm-app/network.js:77-92 | when an open socket closes and the client is stopped and started, two modes run at once |
| LiveUpdates.OpenReached | examples/hiveworm-app/network.js:94-128 | one start leads there |
| LiveUpdates.StateShown | examples/hiveworm-app/network.js:77-145 | what every callback makes of the state shown and of the current socket |
| NetworkClient.Network.OnLog | examples/hiveworm-app/network.js:154-174 | the handler, with its loop over entries, takes the machine's step |
| NetworkClient.Network.OnClose | examples/hiveworm-app/network.js:130-140 | the handler takes the machine's step |
| Mulberry.SameStream | scripts/simulate-auto-heal-bridge.js:33-42 | the unbounded, unsigned and signed generators draw the same numbers from seeds equal modulo 2^32 while the unbounded state stays within 2^53 |
| Mulberry.MixSwappedSame | examples/hiveworm-app/renderer.js:95-101 | the renderer's order of operands makes no difference |
| Mulberry.PastExact | scripts/simulate-blind-atomic-custody.js:501-503 | from the first sum past 2^53 up to 2^55 the unbounded state is off by a known drift, and agrees modulo 2^32 with the wrapped ones at exactly the draws named, never more than two |
| Mulberry.Marches | scripts/simulate-blind-atomic-custody.js:501-503 | through every further binade the unbounded state moves by one constant step, the multiple of the spacing nearest to the increment |
| Mulberry.MarchAgreesIff | scripts/simulate-blind-atomic-custody.js:501-503 | there the states agree modulo 2^32 if and only if the initial offset and what the steps gain cancel |
| Mulberry.AgreesAgain | scripts/simulate-blind-atomic-custody.js:501-503 | from seed 1 the generators part after draw 4917759 and agree again at draw 24588795 |
| Mulberry.StandsStill | scripts/simulate-blind-atomic-custody.js:501-503 | where doubles are 2^32 apart the generator draws one number for ever |
| Shuffling.StreamIs | scripts/simulate-blind-atomic-custody.js:496-507 | what the Rng object draws is that generator's stream |
| KnownDraws.FirstDraw | scripts/simulate-blind-atomic-custody.js:496-507 | the first draws from seeds 0 and 1, derived bit by bit: 1144304738 and 2693262067 over 2^32 |
| Mulberry.FullPeriod | scripts/simulate-auto-heal-bridge.js:34-36 | the state recurs exactly every 2^32 draws |
| Mulberry.IntInRange | scripts/simulate-blind-atomic-custody.js:509-511 | a draw below max stays below max for every max, rounding included |
| Mulberry.IntExact | scripts/simulate-blind-atomic-custody.js:509-511 | up to 2^21 rounding changes nothing |
| Shuffling.DrawBelowIs | scripts/simulate-blind-atomic-custody.js:509-511 | an integer draw below max is the floor of the word times max over 2^32, exactly up to 2^21 and of the rounded product beyond |
| Shuffling.EveryArrangementReached | scripts/simulate-blind-atomic-custody.js:513-522 | every arrangement of the items comes from some vector of draws |
| Shuffling.DrawsRecovered | scripts/simulate-blind-atomic-custody.js:513-522 | for distinct items the draws can be read off the result |
| Shuffling.ExactlyOneVector | scripts/simulate-blind-atomic-custody.js:513-522 | so exactly one vector of draws leads to each arrangement |
| Shuffling.ShuffledMultiset | scripts/simulate-blind-atomic-custody.js:513-522 | the multiset is kept whatever is drawn |
| Shuffling.Rng.Shuffle | scripts/simulate-blind-atomic-custody.js:513-522 | the loop permutes a fresh copy by the next draws of the stream, one less than there are items |
| Fnv.ComputeHash32 | scripts/simulate-blind-atomic-custody.js:462-469 | the loop computes the hash |
| Fnv.OneUnitNeverCollides | scripts/simulate-blind-atomic-custody.js:462-469 | strings that differ in exactly one code unit never collide |
| Fnv.SharedSuffix | scripts/simulate-blind-atomic-custody.js:462-469 | a shared suffix keeps both equality and inequality of hashes |
| Fnv.KnownHash | scripts/simulate-blind-atomic-custody.js:462-469 | the published FNV-1a value of "a" |
| Relays.KeysDistinct | scripts/simulate-blind-atomic-custody.js:471-473 | generated keys differ for different indices below 2^32, whatever the operators |
| Relays.KeysCollide | scripts/simulate-blind-atomic-custody.js:471-473 | relays 2^28 and 2^32 of operator 0 share a key |
| Relays.AlwaysDistinctIff | scripts/simulate-blind-atomic-custody.js:471-473 | the first n keys differ whoever runs the relays if and only if n is at most 2^32 |
| Quorum.SelectDiverse | packages/core/core/quorum-selector.js:144-174 | every pick adds the most dimensions among the keys not yet taken, ties by rank, until the quorum is full or the keys are used up |
| Quorum.RankMeaning | packages/core/core/quorum-selector.js:245-261 | the ranking of relays with scores in [0, 1]: better score first, then lower latency, then the key that comes first |
| Quorum.FirstPickIsBest | packages/core/core/quorum-selector.js:144-174 | nobody in the pool is better than the first pick |
| Quorum.GreedyUnique | packages/core/core/quorum-selector.js:99-174 | there is only one such selection of a given size, so the result does not depend on the order of the pool |
| Quorum.DiversityGuarantee | packages/core/core/quorum-selector.js:99-174 | a selection covers all regions and operators of the pool, or at least one more dimension than it has members |
| Custody.MakeNetwork | scripts/simulate-blind-atomic-custody.js:155-188 | the network is a function of the stream: who is malicious, then operator, region, reliability, latency and score of every relay by their formulas, for any rounding to doubles |
| Custody.NetworkSound | scripts/simulate-blind-atomic-custody.js:155-182 | every generated relay has a key that tells index and operator, malice by operator alone, and figures in their ranges, for every order-keeping rounding to doubles |
| Custody.NetworkKeys | scripts/simulate-blind-atomic-custody.js:155-182 | a network has the size asked for and up to 2^32 relays distinct keys |
| Custody.MaliciousIff | scripts/simulate-blind-atomic-custody.js:156-159 | an operator is malicious exactly when its draw falls below the rate, so at 0 nobody is and at 1 everybody |
| Custody.OperatorMeaning | scripts/simulate-blind-atomic-custody.js:184-188 | a draw below 0.48 confines the operator to the first quarter, or the first three; the next draw says which |
| Custody.DraftMeaning | scripts/simulate-blind-atomic-custody.js:162-167 | which draws make the region, reliability and latency of a relay |
| Custody.PickRelays | scripts/simulate-blind-atomic-custody.js:190-201 | the pick is exactly the first of the shuffled pool, of the stably sorted pool, or the diverse selection, and draws as often as the shuffle does |
| Custody.PickSound | scripts/simulate-blind-atomic-custody.js:190-201 | whatever the strategy: only unexcluded relays of the network, none twice, as many as there are up to count |
| Custody.ScoreBest | scripts/simulate-blind-atomic-custody.js:193 | nobody left out of a score pick scores better than anybody in it |
| Custody.ScoreSortStable | scripts/simulate-blind-atomic-custody.js:193 | relays of equal score and latency stay in the order of the pool |
| Custody.DiverseGreedy | scripts/simulate-blind-atomic-custody.js:194-200 | the diverse pick is greedy in the pool, whatever the order of the pool |
| Simulation.WitnessViolationDetected | scripts/simulate-blind-atomic-custody.js:239-261 | the rounds are exactly those the stream gives: each picks outside the custodians and all earlier witnesses, every honest witness draws once per violator, and the first draw below the rate, or the last round, ends it |
| Simulation.WitnessesSound | scripts/simulate-blind-atomic-custody.js:239-261 | over all rounds no custodian witnesses, nobody witnesses twice, at most rounds times count probes, and a detection has an honest witness |
| Simulation.DetectedByRate | scripts/simulate-blind-atomic-custody.js:239-261 | at a detection rate of 0 nothing is detected, at 1 everything that an honest witness is asked about |
| Simulation.UndetectedRounds | scripts/simulate-blind-atomic-custody.js:239-261 | an undetected violation has been through all its rounds |
| Simulation.RoundStarts | scripts/simulate-blind-atomic-custody.js:239-261 | a round that found nothing has drawn once per violator and honest witness |
| Simulation.IterationRates | scripts/simulate-blind-atomic-custody.js:203-227 | what rates of 0 and 1 come to in a committed iteration: who goes on serving and when the readers are served |
| Simulation.TallyConsistent | scripts/simulate-blind-atomic-custody.js:87-129 | for every scenario undetected <= violations <= committed <= iterations, the other counters below committed, honest <= probes <= violations times the maximum, regions and operators bounded by relays, and equality without witnesses |
| Simulation.TallyCounts | scripts/simulate-blind-atomic-custody.js:103-129 | every counter is the number of iterations in which the thing it names happened, each told by the numbers of receipts, of malicious ones among them and of violators |
| Simulation.FewShardsSafe | scripts/simulate-blind-atomic-custody.js:218-222 | shards with fewer malicious receipts than the threshold are never reconstructed |
| Simulation.MirrorsReconstruct | scripts/simulate-blind-atomic-custody.js:218-222 | a mirror that always has a malicious receipt is reconstructed as often as it commits |
| Simulation.TallySums | scripts/simulate-blind-atomic-custody.js:116-129 | the other totals are sums over iterations and rounds of receipts, witnesses, regions and operators |
| Simulation.ScenarioSound | scripts/simulate-blind-atomic-custody.js:87-129 | the iterations that the seeds determine are such, and with at most 2^32 relays their witnesses are independent in every one |
| Simulation.IterationsUnique | scripts/simulate-blind-atomic-custody.js:103-129 | one seed has one iteration, for every strategy, so two simulations of one length are equal |
| Simulation.RatioOrder | scripts/simulate-blind-atomic-custody.js:475-481 | rounded rates stay in [0, 1] and keep the order of their counters, for every order-keeping rounding to doubles |
| Simulation.RatioBound | scripts/simulate-blind-atomic-custody.js:145-150 | an average of counts up to k is reported as at most what k itself is |
| Simulation.Round4Whole | scripts/simulate-blind-atomic-custody.js:479-481 | and k itself is reported as k while 10000 k is at most 2^53 |
| Simulation.SimulateScenario | scripts/simulate-blind-atomic-custody.js:87-153 | the totals are the tallies of exactly the iterations that the seeds determine, and rates and averages in the report are ordered as their counters |
| Simulation.KnownReport | scripts/simulate-blind-atomic-custody.js:131-153 | one report in exact arithmetic: which counter goes into which figure, and over what |
| Fleet.VerifiedIsTruth | scripts/simulate-auto-heal-bridge.js:69-122 | with url-safe keys the peers whose claim and fetched proof check out are exactly the visible online hosts: liars add none and hide none |
| Fleet.VerifiedMember | scripts/simulate-auto-heal-bridge.js:69-122 | whatever the keys, a peer is counted exactly when it is seen, claims the app, and whoever its url leads to is online and hosts it |
| Fleet.SafeKeysIff | scripts/simulate-auto-heal-bridge.js:56-122 | the verified view and count are right in every state over a set of keys if and only if all the keys are url-safe |
| Fleet.LiarVerified | scripts/simulate-auto-heal-bridge.js:84-104 | a liar called ".examplea" is verified for what only "a.example" hosts |
| Fleet.RunVerified | scripts/simulate-auto-heal-bridge.js:56-150 | in every state reached by joining, replacing, seeding, churn and partitions every relay with a url-safe key is verified exactly when it hosts, with safe joins the whole view is the truth, and hosting has only grown unless a replacement hosted less |
| Fleet.GrowsIff | scripts/simulate-auto-heal-bridge.js:56-67 | a step lets hosting grow if and only if it does not replace a relay by one that hosts less |
| Fleet.StepChanges | scripts/simulate-auto-heal-bridge.js:56-150 | seeding adds one app to one relay, churn changes one relay's state, a partition only who sees whom |
| Fleet.VerifiedCount | scripts/simulate-auto-heal-bridge.js:174-180 | without a partition the verified count is the number of replicas but the viewer |
| Fleet.UrlRoundTrip | scripts/simulate-auto-heal-bridge.js:61-101 | a key comes back from its url if and only if nothing but repetitions follows its first ".example" |
| Fleet.UnsafeKey | scripts/simulate-auto-heal-bridge.js:101 | a key that comes back as another |
| Fleet.SnapshotMembers | scripts/simulate-auto-heal-bridge.js:69-96 | a snapshot lists exactly the visible relays with their region, url, operator and claims |
| Fleet.ListedIff | scripts/simulate-auto-heal-bridge.js:69-79 | nobody is shown itself or a relay that is offline; else a viewer sees its own side of a partition, the first that names it, and everybody if none does |
| Fleet.CutRespected | scripts/simulate-auto-heal-bridge.js:69-79 | with disjoint sides nobody is seen or verified across the cut |
| Fleet.SideVerified | scripts/simulate-auto-heal-bridge.js:69-122 | on one side exactly the online hosts with url-safe keys are verified |
| Fleet.ClaimsMember | scripts/simulate-auto-heal-bridge.js:81-93 | honest relays claim what they host, liars whatever anybody hosts |
| Fleet.World.SnapshotFor | scripts/simulate-auto-heal-bridge.js:69-96 | the nested loops build that snapshot |
| Fleet.World.CountReplicas | scripts/simulate-auto-heal-bridge.js:174-180 | the loop counts the online hosts |
| Lines.ChunkingIndependent | scripts/pearbrowser-marketplace-demo.js:428-442 | however a text is cut into chunks, the emitted lines and the leftover are those of splitting the whole text |
| Lines.SplitFaithful | scripts/pearbrowser-marketplace-demo.js:433-434 | splitting loses nothing |
| Lines.NoBreakInside | scripts/pearbrowser-marketplace-demo.js:433-434 | no line holds a line feed |
| Lines.RawLinesClean | scripts/pearbrowser-marketplace-demo.js:428-442 | nor a carriage return |
| Lines.EmittedIff | scripts/pearbrowser-marketplace-demo.js:433-441 | the lines emitted are exactly the cleaned ones that are not blank |
| Lines.CaptureIsFirst | scripts/pearbrowser-marketplace-demo.js:189-204 | the key captured is that of the first line that has one |
| Lines.StreamReader.OnData | scripts/pearbrowser-marketplace-demo.js:189-204 | after every chunk the lines, the leftover and the captured key are functions of the text seen so far |
| Publisher.DeriveFixed | scripts/publish-app.js:163-165 | derived ids have no leading, trailing or doubled dash, and exactly such texts are their own id |
| Publisher.WordsSurvive | scripts/publish-app.js:163-165 | the letters and digits of a name survive in its id, in lower case and in order |
| Publisher.CaseIgnored | scripts/publish-app.js:163-165 | names that differ only in letter case share one id |
| Publisher.DashBetween | scripts/publish-app.js:163-165 | whatever stands between two words becomes one dash |
| Publisher.RunKeeps | scripts/publish-app.js:376-432 | a run changes no mapped drive but its own under --key, no saved secret, and adds at most its own entries |
| Publisher.KeysStable | scripts/publish-app.js:188-256 | over any sequence of publishes a mapped id keeps its drive key unless a run of that id is given --key |
| Publisher.SecretsStable | scripts/publish-app.js:226-256 | over any sequence of publishes, with or without --key and whatever the store holds, a saved secret never changes |
| Publisher.BlindRunSaves | scripts/publish-app.js:226-256 | a blind run without an encryption key that does not crash leaves a non-empty secret under its id, or "_default": the one saved before, else the fresh one |
| Publisher.BlindRunReuses | scripts/publish-app.js:226-256 | a further such run of that id leaves the secrets as they are |
| Publisher.CrashIff | scripts/publish-app.js:359-432 | a run crashes if and only if it needs a secret under an inherited name, is given a --key that is no key, has an unmapped inherited name as id, or adopts an answer that is no key |
| Publisher.OpenedIff | scripts/publish-app.js:384-390 | a key opens a drive exactly when it begins with 64 hex digits and not with 66, and is reported in lower case |
| Publisher.ConstructorCrashes | scripts/publish-app.js:384-390 | the first publish of an app called "constructor" crashes |
| Publisher.InheritedNeverMapped | scripts/publish-app.js:376-432 | without --key no sequence of runs ever maps an inherited name, and each of its runs crashes |
| Publisher.SameNormalFormSameDrive | scripts/publish-app.js:330-432 | names with the same normal form share one drive across runs |
| Publisher.Storage.RunPublish | scripts/publish-app.js:359-432 | the run on the persisted objects takes that step, crashes included |
| FlagLists.BootstrapRoundTrip | scripts/publish-app.js:167-186 | a printed node list parses back if and only if every host is non-empty, without commas and leading blanks, and every port valid; colons in hosts survive; Number need only read the numerals up to 65535 |
| FlagLists.NodeIff | scripts/publish-app.js:167-186 | an item is a node exactly when it is a host, the last colon and the text of a port from 1 to 65535 |
| FlagLists.ParseApiKeyMap | scripts/publish-app.js:140-151 | the loop fills the map the items say, or fails on the first bad one |
| FlagLists.ApiKeysRoundTrip | scripts/publish-app.js:135-151 | a printed list of pairs parses back if and only if no url is empty or has "=" or leading blanks, no key is empty or has trailing blanks, and neither has commas; then the map is what the pairs say |
| FlagLists.PairIff | scripts/publish-app.js:140-151 | an item is a pair exactly when its first "=" has something before and after it |
| FlagLists.QueryMisread | scripts/publish-app.js:140-151 | a url with "=" in it is accepted, and its tail becomes part of the key |
| FlagLists.KeyFound | scripts/publish-app.js:153-161 | the key is found for its url with any number of trailing slashes |
| FlagLists.UnlistedUrl | scripts/publish-app.js:153-161 | a url that is not listed gets the shared key |
| Janitor.RetainedNotKept | scripts/relay-janitor.js:219-226 | a live retainUntil alone is kept exactly when blind |
| Janitor.RetainedJunk | scripts/relay-janitor.js:219-226 | an entry with an hour left goes to review or the test bucket unless it is blind |
| Janitor.VersionOrder | scripts/relay-janitor.js:360-368 | the version test is a total preorder |
| Janitor.VersionMeaning | scripts/relay-janitor.js:360-368 | three finite components compare from the left |
| Janitor.CompareVersions | scripts/relay-janitor.js:360-368 | the loop decides it |
| Janitor.SweepFleet | scripts/relay-janitor.js:109-196 | in a whole run every call is on a relay with readable registry, key and version, names a test entry under --tier1 or a reviewed key, stays within a non-negative cap; the buckets add up to the registries read, successes and failures to the calls made |
| Janitor.NoCallWithout | scripts/relay-janitor.js:164-170 | a dry run calls nothing, nor does any run a relay that cannot be read, has no key or is below 0.8.14 |
| Janitor.AnswersCount | scripts/relay-janitor.js:182-195 | if all calls are answered ok all succeed, and if none is, none |
| Janitor.SliceKeeps | scripts/relay-janitor.js:177-180 | a cap keeps the first that many entries, a negative one drops that many from the back |
| Janitor.SweepOrder | scripts/relay-janitor.js:171-180 | the list that the cap cuts: test entries under --tier1, then the reviewed ones |
| Janitor.ProtectedNeedsReview | scripts/relay-janitor.js:164-195 | a protected entry is swept only through the reviewed file, or under --tier1 through a test entry listed under the same key |
| Janitor.UnreviewedIsOurs | scripts/relay-janitor.js:164-195 | what is unseeded without review has a test identity and is not protected |
| Janitor.NeverUnreviewedIff | scripts/relay-janitor.js:130-195 | the registries where no flags sweep a protected entry unreviewed are exactly those where no protected entry shares its key with a test entry |
| Janitor.DurableSwept | scripts/relay-janitor.js:130-195 | one key listed as durable and again under a test name is swept with nothing reviewed |
| Janitor.CallsComplete | scripts/relay-janitor.js:164-182 | when the cap leaves room the calls are all the allowed ones: every test entry under --tier1, every reviewed key the relay has |
| Janitor.NegativeCap | scripts/relay-janitor.js:177-180 | a negative cap bounds nothing but short lists |
| Janitor.NegativeCapSweeps | scripts/relay-janitor.js:177-180 | --cap -1 on three entries sweeps two |
| Janitor.RefusesOldIff | scripts/relay-janitor.js:166-170 | one relay below 0.8.14 keeps the whole run from sweeping if and only if there was nothing to sweep |
| Janitor.OldBesideRecent | scripts/relay-janitor.js:166-170 | an old relay beside a recent one with a test entry: the recent one is swept |

## Left out

- The relay kernel in `packages/` other than the quorum selector: proofs, logs, signing, arbitration and registries behind the scripts.
- Cryptography: only the bytes handed to SHA-256 and Ed25519 are modelled.
- `World.loadState` of HiveWorm, animation, timestamps and the display fields of food; food is a set of cells.
- A move direction that names a property every JavaScript object inherits; directions are the four of DIR_VEC or none.
- WebSocket messages: they change no field of the client, and what they deliver is not counted as polled.
- A relay that answers getLog with another `from` than asked; answers are a slice of an append-only log.
- Quorum.RankMeaning: localeCompare is the order of code units, as it is on the lower-case hexadecimal keys of the simulator.
- Simulation.WitnessViolationDetected: frequencies of detection are not claimed.
- Mulberry.Marches: the single draws that cross from one binade to the next are given by rounding alone.
- The rest of the custody simulator: cost units, scoring, sweeps and reports over the rates.
- Lines.StreamReader.OnData: stripping ANSI codes, blankness and the drive-key pattern are arbitrary functions; stdout and stderr are separate readers.
- Publisher.KeysStable: the key files are intact between runs; the id `__proto__`, which cannot be stored, is not told apart.
- FlagLists.BootstrapRoundTrip: Number(...) is any function that reads the decimal numerals of ports.
- Fleet.RunVerified: a node made before its relay was replaced seeds an object nobody sees, which is no step; which region and operator the generator picks is an input.
- Janitor.SweepFleet: SSH, the environment and the unseed service are inputs; `--cap` is an integer.
- Numbers in JSON are their shortest decimals; how an engine finds those digits is not modelled.
