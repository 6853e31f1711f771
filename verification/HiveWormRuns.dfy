/** Whole-run facts about the HiveWorm world: bodies replay their history, live bodies stay apart. */
module HiveWormRuns {
  import opened Wrappers
  import opened HiveWorm
  import opened Texts

  // ---------------------------------------------------------------- body equals history

  /** Since its last spawn: where a worm's head has been, newest first, and how much it ate. */
  datatype Track = Track(trail: seq<Cell>, eaten: nat)

  /** How one entry extends a track. It looks at whether the worm may move and at the food, never at a body. */
  function Extend(w: World, key: Pubkey, track: Option<Track>, e: Entry): Option<Track> {
    match e
    case SpawnEntry(k, at) => if k == key then Some(Track([at], 0)) else track
    case MoveEntry(k, d) =>
      if k == key && track.Some? && track.value.trail != [] && Accepted(w, key, d) then
        var to := Shift(track.value.trail[0], d);
        Some(Track([to] + track.value.trail, track.value.eaten + if to in w.food then 1 else 0))
      else track
    case _ => track
  }

  function History(w: World, key: Pubkey, entries: seq<Entry>): Option<Track> {
    if entries == [] then None
    else
      var before := entries[..|entries| - 1];
      Extend(Run(w, before), key, History(w, key, before), entries[|entries| - 1])
  }

  /** The first n cells of a trail, padded with its oldest cell. */
  function Window(trail: seq<Cell>, n: int): seq<Cell>
    requires trail != [] && n >= 0
  {
    seq(n, i requires 0 <= i => if i < |trail| then trail[i] else trail[|trail| - 1])
  }

  predicate Adjacent(a: Cell, b: Cell) {
    (a.x == b.x && (a.y - b.y == 1 || b.y - a.y == 1)) || (a.y == b.y && (a.x - b.x == 1 || b.x - a.x == 1))
  }

  ghost predicate Path(trail: seq<Cell>) {
    forall i | 0 <= i < |trail| - 1 :: Adjacent(trail[i], trail[i + 1])
  }

  /** The body is the window on the trail, the trail is a path, the length is the spawn length plus the meals. */
  ghost predicate Replays(w: World, key: Pubkey, track: Track) {
    && track.trail != [] && Path(track.trail)
    && key in w.worms
    && w.worms[key].length == w.config.spawnLength + track.eaten
    && w.worms[key].length >= 1
    && w.worms[key].segments == Window(track.trail, w.worms[key].length)
  }

  lemma WindowStep(trail: seq<Cell>, to: Cell, n: int)
    requires trail != [] && n >= 1
    ensures [to] + Window(trail, n) == Window([to] + trail, n + 1)
    ensures ([to] + Window(trail, n))[..n] == Window([to] + trail, n)
  {
  }

  lemma AdvancedWindow(worm: Worm, to: Cell, ate: bool, trail: seq<Cell>)
    requires trail != [] && worm.length >= 1 && worm.segments == Window(trail, worm.length)
    ensures Advanced(worm, to, ate).segments == Window([to] + trail, Advanced(worm, to, ate).length)
  {
    WindowStep(trail, to, worm.length);
  }

  lemma ReplaysMove(w: World, key: Pubkey, track: Track, d: Direction)
    requires Good(w) && Replays(w, key, track) && Accepted(w, key, d)
    ensures Replays(ApplyMove(w, key, d).0, key, Extend(w, key, Some(track), MoveEntry(key, d)).value)
  {
    var to := Target(w, key, d);
    assert to == Shift(track.trail[0], d);
    AdvancedWindow(w.worms[key], to, to in w.food, track.trail);
    var trail' := [to] + track.trail;
    assert Adjacent(to, track.trail[0]);
    forall i | 0 <= i < |trail'| - 1 ensures Adjacent(trail'[i], trail'[i + 1]) {
      if i > 0 {
        assert Adjacent(track.trail[i - 1], track.trail[i]);
      }
    }
  }

  lemma ReplaysStep(w: World, key: Pubkey, track: Option<Track>, e: Entry)
    requires Good(w) && (track.Some? ==> Replays(w, key, track.value))
    ensures var track' := Extend(w, key, track, e); track'.Some? ==> Replays(Apply(w, e).0, key, track'.value)
  {
    if e.MoveEntry? && e.worm == key && Accepted(w, key, e.direction) && track.Some? {
      ReplaysMove(w, key, track.value, e.direction);
    } else if e.SpawnEntry? && e.worm == key {
      assert Repeated(e.at, w.config.spawnLength) == Window([e.at], w.config.spawnLength);
    }
  }

  /** After any run from a good state, every worm spawned in the run replays its history. */
  lemma {:induction false} BodyIsHistory(w: World, key: Pubkey, entries: seq<Entry>)
    requires Good(w)
    ensures History(w, key, entries).Some? ==> Replays(Run(w, entries), key, History(w, key, entries).value)
    ensures (exists i :: 0 <= i < |entries| && entries[i].SpawnEntry? && entries[i].worm == key)
            <==> History(w, key, entries).Some?
  {
    if entries != [] {
      var before, e := entries[..|entries| - 1], entries[|entries| - 1];
      BodyIsHistory(w, key, before);
      GoodRun(w, before);
      ReplaysStep(Run(w, before), key, History(w, key, before), e);
      if i :| 0 <= i < |entries| && entries[i].SpawnEntry? && entries[i].worm == key {
        assert i < |before| ==> before[i] == entries[i];
      }
      if History(w, key, before).Some? {
        var i :| 0 <= i < |before| && before[i].SpawnEntry? && before[i].worm == key;
        assert entries[i] == before[i];
      }
    }
  }

  /** So a body is a connected chain: neighbouring segments coincide or are adjacent. */
  lemma ReplayedBodyConnected(w: World, key: Pubkey, track: Track, i: nat)
    requires Replays(w, key, track) && i + 1 < |w.worms[key].segments|
    ensures var s := w.worms[key].segments; s[i] == s[i + 1] || Adjacent(s[i], s[i + 1])
  {
    if i + 1 < |track.trail| {
      assert Adjacent(track.trail[i], track.trail[i + 1]);
    }
  }

  // ---------------------------------------------------------------- live bodies stay apart

  ghost predicate Apart(w: World) {
    forall a, b, c | a in w.worms && b in w.worms && a != b && w.worms[a].alive && w.worms[b].alive ::
      !(c in w.worms[a].segments && c in w.worms[b].segments)
  }

  ghost predicate FreeOfOthers(w: World, key: Pubkey, c: Cell) {
    forall k | k in w.worms && k != key && w.worms[k].alive :: c !in w.worms[k].segments
  }

  /** What keeps live bodies apart through one entry: a spawn lands clear of other live worms,
      and no live worm with the empty pubkey, which cannot stop a mover, is in the way of a move. */
  ghost predicate Safe(w: World, e: Entry) {
    match e
    case SpawnEntry(key, at) => FreeOfOthers(w, key, at)
    case MoveEntry(key, d) =>
      Accepted(w, key, d) && key != "" && "" in w.worms && w.worms[""].alive ==> Target(w, key, d) !in w.worms[""].segments
    case _ => true
  }

  lemma {:induction false} ColliderHits(order: seq<Pubkey>, worms: map<Pubkey, Worm>, key: Pubkey, c: Cell)
    ensures var k := Collider(order, worms, key, c);
            if k == "" then forall other | other in order :: !Hits(worms, key, c, other)
            else k in order && Hits(worms, key, c, k)
  {
    if order != [] {
      ColliderHits(order[1..], worms, key, c);
    }
  }

  /** Of several worms in the way, the one first in map order is the killer. */
  lemma {:induction false} ColliderFirst(order: seq<Pubkey>, worms: map<Pubkey, Worm>, key: Pubkey, c: Cell, i: nat)
    requires i < |order| && Hits(worms, key, c, order[i])
    requires forall j | 0 <= j < i :: !Hits(worms, key, c, order[j])
    ensures Collider(order, worms, key, c) == order[i]
  {
    if i > 0 {
      ColliderFirst(order[1..], worms, key, c, i - 1);
    }
  }

  lemma AdvancedCells(worm: Worm, to: Cell, ate: bool)
    requires worm.segments != []
    ensures to in Advanced(worm, to, ate).segments
    ensures forall c | c in Advanced(worm, to, ate).segments :: c == to || c in worm.segments
  {
    var body := [to] + worm.segments;
    assert body[0] == to && body[..|body| - 1][0] == to;
  }

  lemma ApartAfterMove(w: World, key: Pubkey, d: Direction)
    requires Good(w) && Apart(w) && Accepted(w, key, d)
    ensures Apart(ApplyMove(w, key, d).0) <==> Safe(w, MoveEntry(key, d))
  {
    var to := Target(w, key, d);
    var ate := to in w.food;
    var w' := ApplyMove(w, key, d).0;
    ColliderHits(w.order, w.worms, key, to);
    AdvancedCells(w.worms[key], to, ate);
    assert w'.worms[key].segments == Advanced(w.worms[key], to, ate).segments;
    if !Safe(w, MoveEntry(key, d)) {
      assert to in w'.worms[key].segments && to in w'.worms[""].segments;
    } else if w'.worms[key].alive {
      assert FreeOfOthers(w, key, to);
    }
  }

  lemma SpawnedBody(w: World, key: Pubkey, at: Cell)
    requires Good(w)
    ensures var w' := ApplySpawn(w, key, at);
            && w'.worms[key].alive && w'.worms[key].segments[0] == at
            && forall c :: c in w'.worms[key].segments <==> c == at
  {
    assert ApplySpawn(w, key, at).worms[key].segments == Repeated(at, w.config.spawnLength);
    assert at == Repeated(at, w.config.spawnLength)[0];
  }

  lemma ApartAfterSpawn(w: World, key: Pubkey, at: Cell)
    requires Good(w) && Apart(w)
    ensures Apart(ApplySpawn(w, key, at)) <==> Safe(w, SpawnEntry(key, at))
  {
    var w' := ApplySpawn(w, key, at);
    SpawnedBody(w, key, at);
    if Apart(w') {
      forall k | k in w.worms && k != key && w.worms[k].alive ensures at !in w.worms[k].segments {
        assert w'.worms[k] == w.worms[k] && at in w'.worms[key].segments;
      }
    }
  }

  /** Exactly the safe entries keep live bodies apart. */
  lemma ApartIffSafe(w: World, e: Entry)
    requires Good(w) && Apart(w)
    ensures Apart(Apply(w, e).0) <==> Safe(w, e)
  {
    match e
    case SpawnEntry(key, at) => ApartAfterSpawn(w, key, at);
    case MoveEntry(key, d) =>
      if Accepted(w, key, d) {
        ApartAfterMove(w, key, d);
      }
    case _ =>
  }

  ghost predicate SafeRun(w: World, entries: seq<Entry>) {
    forall i | 0 <= i < |entries| :: Safe(Run(w, entries[..i]), entries[i])
  }

  lemma {:induction false} ApartRun(w: World, entries: seq<Entry>)
    requires Good(w) && Apart(w) && SafeRun(w, entries)
    ensures Apart(Run(w, entries))
  {
    if entries != [] {
      var n := |entries| - 1;
      assert forall i | 0 <= i < n :: entries[..n][..i] == entries[..i];
      ApartRun(w, entries[..n]);
      GoodRun(w, entries[..n]);
      ApartIffSafe(Run(w, entries[..n]), entries[n]);
    }
  }

  ghost predicate NoEmptyKey(w: World) {
    "" !in w.worms
  }

  /** The usual reading: real pubkeys are never empty, so it is enough that every spawn lands on a free cell. */
  lemma {:induction false} SpawnsOnFreeCells(w: World, entries: seq<Entry>)
    requires Good(w) && Apart(w) && NoEmptyKey(w)
    requires forall i | 0 <= i < |entries| && entries[i].SpawnEntry? ::
               entries[i].worm != "" && FreeOfOthers(Run(w, entries[..i]), entries[i].worm, entries[i].at)
    ensures NoEmptyKey(Run(w, entries)) && Apart(Run(w, entries))
  {
    if entries != [] {
      var n := |entries| - 1;
      assert forall i | 0 <= i < n :: entries[..n][..i] == entries[..i];
      SpawnsOnFreeCells(w, entries[..n]);
      GoodRun(w, entries[..n]);
      ApartIffSafe(Run(w, entries[..n]), entries[n]);
    }
  }

  // ---------------------------------------------------------------- deaths

  /** One entry kills at most the mover, and the recorded killer is another worm,
      alive before and after, untouched, whose body holds the fatal cell. */
  lemma StepKills(w: World, e: Entry)
    requires Good(w)
    ensures var (w', hint) := Apply(w, e);
            if hint != Died then
              w'.deaths == w.deaths && forall k | k in w.worms && w.worms[k].alive :: k in w'.worms && w'.worms[k].alive
            else
              var death := w'.deaths[|w'.deaths| - 1];
              && e.MoveEntry? && w'.deaths == w.deaths + [death]
              && death.pubkey == e.worm && w.worms[e.worm].alive && !w'.worms[e.worm].alive
              && (forall k | k in w.worms && k != e.worm :: k in w'.worms && w'.worms[k] == w.worms[k])
              && death.killer != e.worm && death.killer in w.worms && w.worms[death.killer].alive
              && death.at in w.worms[death.killer].segments
              && death.at == w'.worms[e.worm].segments[0]
              && (forall c :: c in w'.food <==>
                    (c in w.food && c != death.at) ||
                    (c in w'.worms[e.worm].segments && 0 <= c.x < w.config.width && 0 <= c.y < w.config.height))
  {
    if e.MoveEntry? && Accepted(w, e.worm, e.direction) {
      ColliderHits(w.order, w.worms, e.worm, Target(w, e.worm, e.direction));
    }
  }

  /** What the hints tell the renderer: a survivor's head has stepped in the given direction; it ate exactly when it
      grew by one and the food lost the cell under its head; otherwise nothing but the mover changed. */
  lemma HintMeaning(w: World, key: Pubkey, d: Direction)
    requires Good(w)
    ensures var (w', hint) := ApplyMove(w, key, d);
            && (hint == Ignored <==> !(key in w.worms && w.worms[key].alive && d != NoDirection))
            && (hint == Ignored ==> w' == w)
            && (hint == Moved || hint == Ate ==>
                  && w'.worms[key].alive && w'.worms[key].segments[0] == Shift(w.worms[key].segments[0], d)
                  && (forall k | k in w.worms && k != key :: k in w'.worms && w'.worms[k] == w.worms[k]))
            && (hint == Ate ==>
                  && w'.worms[key].length == w.worms[key].length + 1
                  && w'.worms[key].segments[0] in w.food && w'.food == w.food - {w'.worms[key].segments[0]})
            && (hint == Moved ==>
                  && w'.worms[key].length == w.worms[key].length
                  && w'.worms[key].segments[0] !in w.food && w'.food == w.food)
  {
    if Accepted(w, key, d) {
      var to := Target(w, key, d);
      var body := [to] + w.worms[key].segments;
      assert body[0] == to && body[..|body| - 1][0] == to;
    }
  }

  /** Every accepted move puts the head one cell on: north is up, where y is smaller. */
  lemma HeadMoves(w: World, key: Pubkey, d: Direction)
    requires Good(w) && key in w.worms && w.worms[key].alive && d != NoDirection
    ensures var old_, new_ := w.worms[key].segments[0], ApplyMove(w, key, d).0.worms[key].segments[0];
            && (d == North ==> new_.x == old_.x && new_.y == old_.y - 1)
            && (d == South ==> new_.x == old_.x && new_.y == old_.y + 1)
            && (d == East ==> new_.x == old_.x + 1 && new_.y == old_.y)
            && (d == West ==> new_.x == old_.x - 1 && new_.y == old_.y)
  {
    var body := [Target(w, key, d)] + w.worms[key].segments;
    assert body[..|body| - 1][0] == body[0];
  }

  /** A spawn: alive, of the configured length, all on one cell; the others, the food and the records stay. */
  lemma SpawnMeaning(w: World, key: Pubkey, at: Cell)
    requires Good(w)
    ensures var w' := ApplySpawn(w, key, at);
            && key in w'.worms && w'.worms[key].alive && w'.worms[key].length == w.config.spawnLength
            && |w'.worms[key].segments| == w.config.spawnLength && (forall c | c in w'.worms[key].segments :: c == at)
            && (forall k | k in w.worms && k != key :: k in w'.worms && w'.worms[k] == w.worms[k])
            && w'.food == w.food && w'.deaths == w.deaths && w'.memorials == w.memorials
            && w'.order == if key in w.order then w.order else w.order + [key]
  {
  }

  /** The other entries: a memorial is recorded with its tick, anything else changes nothing. */
  lemma OtherEntries(w: World, key: Pubkey, epitaph: string)
    ensures var (w', hint) := Apply(w, MemorialEntry(key, epitaph));
            hint == Remembered && w' == w.(memorials := w.memorials + [Memorial(key, epitaph, w.tick)])
    ensures Apply(w, OtherEntry) == (w, Ignored)
    ensures forall at :: Apply(w, SpawnEntry(key, at)).1 == Spawned
  {
  }

  lemma KnownCellKey()
    ensures CellKey(Cell(-3, 14)) == Ascii("-3,14")
  {
    assert NatText(3) == [51] && NatText(14) == [49, 52];
  }

  /** How often the given worm was reported to eat since its last spawn. */
  function AteHints(w: World, key: Pubkey, entries: seq<Entry>): nat {
    if entries == [] then 0
    else
      var before, e := entries[..|entries| - 1], entries[|entries| - 1];
      if e.SpawnEntry? && e.worm == key then 0
      else AteHints(w, key, before) + if e.MoveEntry? && e.worm == key && Apply(Run(w, before), e).1 == Ate then 1 else 0
  }

  /** For a worm that is alive, one move more: a meal and an Ate hint are the same thing. */
  lemma MealIsReported(w: World, key: Pubkey, track: Track, d: Direction)
    requires Good(w) && Replays(w, key, track) && ApplyMove(w, key, d).0.worms[key].alive
    ensures w.worms[key].alive
    ensures Extend(w, key, Some(track), MoveEntry(key, d)).value.eaten
         == track.eaten + if ApplyMove(w, key, d).1 == Ate then 1 else 0
  {
    HintMeaning(w, key, d);
    StepKills(w, MoveEntry(key, d));
  }

  lemma OthersMove(w: World, key: Pubkey, e: Entry)
    requires Good(w) && key in w.worms && !(e.SpawnEntry? && e.worm == key) && !(e.MoveEntry? && e.worm == key)
    ensures key in Apply(w, e).0.worms && Apply(w, e).0.worms[key] == w.worms[key]
  {
    if e.MoveEntry? {
      HintMeaning(w, e.worm, e.direction);
      StepKills(w, e);
    }
  }

  /** Over any run, a live worm has eaten exactly as often as was reported: its length is the spawn length plus its
      Ate hints since it was spawned. */
  lemma {:induction false} MealsAreReported(w: World, key: Pubkey, entries: seq<Entry>)
    requires Good(w) && History(w, key, entries).Some?
    ensures key in Run(w, entries).worms
    ensures Run(w, entries).worms[key].alive ==>
              && History(w, key, entries).value.eaten == AteHints(w, key, entries)
              && Run(w, entries).worms[key].length == w.config.spawnLength + AteHints(w, key, entries)
  {
    BodyIsHistory(w, key, entries);
    GoodRun(w, entries);
    var before, e := entries[..|entries| - 1], entries[|entries| - 1];
    if !(e.SpawnEntry? && e.worm == key) {
      MealsAreReported(w, key, before);
      GoodRun(w, before);
      BodyIsHistory(w, key, before);
      if e.MoveEntry? && e.worm == key {
        if Run(w, entries).worms[key].alive {
          MealIsReported(Run(w, before), key, History(w, key, before).value, e.direction);
        }
      } else {
        OthersMove(Run(w, before), key, e);
      }
    }
  }

  /** A live worm with the empty pubkey is run through: spawn it, spawn another beside it, step onto it. */
  lemma EmptyKeyOverlaps(w: World, key: Pubkey, at: Cell)
    requires Good(w) && Apart(w) && NoEmptyKey(w) && key != ""
    requires FreeOfOthers(w, "", at) && FreeOfOthers(w, key, Shift(at, East))
    ensures var w1 := ApplySpawn(w, "", at);
            var w2 := ApplySpawn(w1, key, Shift(at, East));
            Apart(w1) && Apart(w2) && !Apart(ApplyMove(w2, key, West).0)
  {
    var beside := Shift(at, East);
    var w1 := ApplySpawn(w, "", at);
    var w2 := ApplySpawn(w1, key, beside);
    GoodStep(w, SpawnEntry("", at));
    GoodStep(w1, SpawnEntry(key, beside));
    ApartAfterSpawn(w, "", at);
    SpawnedBody(w, "", at);
    ApartAfterSpawn(w1, key, beside);
    SpawnedBody(w1, key, beside);
    RunThrough(w2, key, at);
  }

  lemma RunThrough(w: World, key: Pubkey, at: Cell)
    requires Good(w) && Apart(w) && key != "" && key in w.worms && "" in w.worms
    requires w.worms[key].alive && w.worms[key].segments[0] == Shift(at, East)
    requires w.worms[""].alive && at in w.worms[""].segments
    ensures !Apart(ApplyMove(w, key, West).0)
  {
    assert Target(w, key, West) == at;
    ApartAfterMove(w, key, West);
  }
}
