/** examples/hiveworm-app/world.js and worm.js: the replicated world as a value, and what one entry does to it. */
module HiveWorm {
  import opened Wrappers
  import opened Texts

  type Pubkey = string

  datatype Cell = Cell(x: int, y: int)

  datatype Config = Config(width: int, height: int, spawnLength: int)

  datatype Worm = Worm(segments: seq<Cell>, length: int, alive: bool)

  datatype Death = Death(pubkey: Pubkey, at: Cell, killer: Pubkey)

  datatype Memorial = Memorial(pubkey: Pubkey, epitaph: string, atTick: int)

  /** `order` is the insertion order of the JavaScript Map `worms`. */
  datatype World = World(
    config: Config,
    order: seq<Pubkey>,
    worms: map<Pubkey, Worm>,
    food: set<Cell>,
    deaths: seq<Death>,
    memorials: seq<Memorial>,
    tick: int)

  /** A direction named in DIR_VEC, or one that is not. */
  datatype Direction = North | South | East | West | NoDirection

  datatype Entry =
    | SpawnEntry(worm: Pubkey, at: Cell)
    | MoveEntry(worm: Pubkey, direction: Direction)
    | MemorialEntry(worm: Pubkey, epitaph: string)
    | OtherEntry

  datatype Hint = Ignored | Spawned | Moved | Ate | Died | Remembered

  // ---------------------------------------------------------------- cells

  function CellKey(c: Cell): Text {
    IntText(c.x) + [COMMA] + IntText(c.y)
  }

  /** The string keys of the food map stand for cells one to one. */
  lemma CellKeyInjective(a: Cell, b: Cell)
    requires CellKey(a) == CellKey(b)
    ensures a == b
  {
    var ka, kb := CellKey(a), CellKey(b);
    CellKeyComma(a);
    CellKeyComma(b);
    IntTextInjective(a.x, b.x);
    IntTextInjective(a.y, b.y);
  }

  lemma CellKeyComma(c: Cell)
    ensures var i := IndexOf(CellKey(c), COMMA);
            i < |CellKey(c)| && CellKey(c)[..i] == IntText(c.x) && CellKey(c)[i + 1..] == IntText(c.y)
  {
    var x := IntText(c.x);
    IntTextShape(c.x);
    assert CellKey(c)[..|x|] == x;
    IndexOfIs(CellKey(c), COMMA, |x|);
  }

  function Shift(c: Cell, d: Direction): Cell
    requires d != NoDirection
  {
    match d
    case North => Cell(c.x, c.y - 1)
    case South => Cell(c.x, c.y + 1)
    case East => Cell(c.x + 1, c.y)
    case West => Cell(c.x - 1, c.y)
  }

  predicate InBounds(config: Config, c: Cell) {
    0 <= c.x < config.width && 0 <= c.y < config.height
  }

  // ---------------------------------------------------------------- entries

  /** Worm.setSegments: an empty list leaves the body as it was. */
  function SetSegments(worm: Worm, segments: seq<Cell>): Worm {
    if segments == [] then worm else worm.(segments := segments)
  }

  function Repeated(c: Cell, n: int): (s: seq<Cell>)
    ensures |s| == if n < 0 then 0 else n
    ensures forall i | 0 <= i < |s| :: s[i] == c
  {
    seq(if n < 0 then 0 else n, i => c)
  }

  const NEW_WORM := Worm([], 3, true)

  function ApplySpawn(w: World, key: Pubkey, at: Cell): World {
    var worm := if key in w.worms then w.worms[key] else NEW_WORM;
    var n := w.config.spawnLength;
    w.(worms := w.worms[key := SetSegments(worm.(length := n, alive := true), Repeated(at, n))],
       order := if key in w.worms then w.order else w.order + [key])
  }

  /** Whether `other` stops a mover `key` at `c`: an empty pubkey is falsy and stops nobody. */
  predicate Hits(worms: map<Pubkey, Worm>, key: Pubkey, c: Cell, other: Pubkey) {
    other != key && other != "" && other in worms && worms[other].alive && c in worms[other].segments
  }

  /** The first worm, in map order, that stops the mover; empty when there is none. */
  function Collider(order: seq<Pubkey>, worms: map<Pubkey, Worm>, key: Pubkey, c: Cell): Pubkey {
    if order == [] then ""
    else if Hits(worms, key, c, order[0]) then order[0]
    else Collider(order[1..], worms, key, c)
  }

  function Advanced(worm: Worm, to: Cell, ate: bool): Worm
    requires worm.segments != []
  {
    var body := [to] + worm.segments;
    SetSegments(worm.(length := worm.length + if ate then 1 else 0), if ate then body else body[..|body| - 1])
  }

  function Dropped(config: Config, segments: seq<Cell>): set<Cell> {
    set c | c in segments && InBounds(config, c)
  }

  /** Whether a move entry gets past the early returns. */
  predicate Accepted(w: World, key: Pubkey, d: Direction) {
    key in w.worms && w.worms[key].alive && w.worms[key].segments != [] && d != NoDirection
  }

  function Target(w: World, key: Pubkey, d: Direction): Cell
    requires Accepted(w, key, d)
  {
    Shift(w.worms[key].segments[0], d)
  }

  /** An accepted move once its target is known and the collision scan has answered. */
  function Resolve(w: World, key: Pubkey, to: Cell, killer: Pubkey): (World, Hint)
    requires key in w.worms && w.worms[key].segments != []
  {
    var ate := to in w.food;
    var worm := Advanced(w.worms[key], to, ate);
    var food := if ate then w.food - {to} else w.food;
    if killer == "" then (w.(worms := w.worms[key := worm], food := food), if ate then Ate else Moved)
    else
      (w.(worms := w.worms[key := worm.(alive := false)],
          food := food + Dropped(w.config, worm.segments),
          deaths := w.deaths + [Death(key, to, killer)]), Died)
  }

  function ApplyMove(w: World, key: Pubkey, d: Direction): (World, Hint) {
    if !Accepted(w, key, d) then (w, Ignored)
    else
      var to := Target(w, key, d);
      Resolve(w, key, to, Collider(w.order, w.worms, key, to))
  }

  function Apply(w: World, e: Entry): (World, Hint) {
    match e
    case SpawnEntry(key, at) => (ApplySpawn(w, key, at), Spawned)
    case MoveEntry(key, d) => ApplyMove(w, key, d)
    case MemorialEntry(key, epitaph) => (w.(memorials := w.memorials + [Memorial(key, epitaph, w.tick)]), Remembered)
    case OtherEntry => (w, Ignored)
  }

  function Run(w: World, entries: seq<Entry>): World {
    if entries == [] then w else Apply(Run(w, entries[..|entries| - 1]), entries[|entries| - 1]).0
  }

  function NewWorld(config: Config): World {
    World(config, [], map[], {}, [], [], 0)
  }

  // ---------------------------------------------------------------- good states

  /** Every body is as long as its recorded length and not empty. */
  ghost predicate Good(w: World) {
    && w.config.spawnLength >= 1
    && (forall i, j | 0 <= i < j < |w.order| :: w.order[i] != w.order[j])
    && (forall k :: k in w.order <==> k in w.worms)
    && (forall k | k in w.worms :: |w.worms[k].segments| == w.worms[k].length >= 1)
  }

  lemma GoodStep(w: World, e: Entry)
    requires Good(w)
    ensures Good(Apply(w, e).0) && Apply(w, e).0.config == w.config
  {
  }

  lemma {:induction false} GoodRun(w: World, entries: seq<Entry>)
    requires Good(w)
    ensures Good(Run(w, entries)) && Run(w, entries).config == w.config
  {
    if entries != [] {
      GoodRun(w, entries[..|entries| - 1]);
      GoodStep(Run(w, entries[..|entries| - 1]), entries[|entries| - 1]);
    }
  }

  // ---------------------------------------------------------------- mass

  function LiveLength(worm: Worm): int {
    if worm.alive then worm.length else 0
  }

  function LiveTotal(order: seq<Pubkey>, worms: map<Pubkey, Worm>): int
    requires forall k | k in order :: k in worms
  {
    if order == [] then 0 else LiveLength(worms[order[0]]) + LiveTotal(order[1..], worms)
  }

  /** Total length of live worms plus number of food cells. */
  function Mass(w: World): int
    requires forall k | k in w.order :: k in w.worms
  {
    LiveTotal(w.order, w.worms) + |w.food|
  }

  lemma {:induction false} LiveTotalElsewhere(order: seq<Pubkey>, worms: map<Pubkey, Worm>, key: Pubkey, worm: Worm)
    requires key !in order && forall k | k in order :: k in worms
    ensures LiveTotal(order, worms[key := worm]) == LiveTotal(order, worms)
  {
    if order != [] {
      LiveTotalElsewhere(order[1..], worms, key, worm);
    }
  }

  lemma {:induction false} LiveTotalUpdate(order: seq<Pubkey>, worms: map<Pubkey, Worm>, key: Pubkey, worm: Worm)
    requires key in order && forall k | k in order :: k in worms
    requires forall i, j | 0 <= i < j < |order| :: order[i] != order[j]
    ensures LiveTotal(order, worms[key := worm]) == LiveTotal(order, worms) - LiveLength(worms[key]) + LiveLength(worm)
  {
    if order[0] == key {
      LiveTotalElsewhere(order[1..], worms, key, worm);
    } else {
      LiveTotalUpdate(order[1..], worms, key, worm);
    }
  }

  lemma {:induction false} LiveTotalAppend(order: seq<Pubkey>, worms: map<Pubkey, Worm>, key: Pubkey)
    requires key in worms && forall k | k in order :: k in worms
    ensures LiveTotal(order + [key], worms) == LiveTotal(order, worms) + LiveLength(worms[key])
  {
    if order == [] {
      assert [] + [key] == [key];
    } else {
      LiveTotalAppend(order[1..], worms, key);
      assert (order + [key])[1..] == order[1..] + [key];
    }
  }

  lemma {:induction false} CellsOf(segments: seq<Cell>)
    ensures |set c | c in segments| <= |segments|
  {
    if segments != [] {
      CellsOf(segments[1..]);
      assert (set c | c in segments) == {segments[0]} + (set c | c in segments[1..]);
    } else {
      assert (set c | c in segments) == {};
    }
  }

  lemma DroppedSize(config: Config, segments: seq<Cell>)
    ensures |Dropped(config, segments)| <= |segments|
  {
    CellsOf(segments);
    SubsetSize(Dropped(config, segments), set c | c in segments);
  }

  /** A world starts with neither worms nor food. */
  lemma NothingAtFirst(config: Config)
    ensures NewWorld(config).order == [] && NewWorld(config).food == {} && Mass(NewWorld(config)) == 0
  {
  }

  /** A respawned worm's body fits its length exactly when the configured length is positive. */
  lemma SpawnFitsIff(w: World, key: Pubkey, at: Cell)
    requires key in w.worms && w.worms[key].segments != []
    ensures var worm := ApplySpawn(w, key, at).worms[key];
            |worm.segments| == worm.length <==> w.config.spawnLength > 0
    ensures w.config.spawnLength <= 0 ==> ApplySpawn(w, key, at).worms[key].segments == w.worms[key].segments
  {
  }

  lemma MassOfSpawn(w: World, key: Pubkey, at: Cell)
    requires Good(w)
    ensures Good(ApplySpawn(w, key, at))
    ensures Mass(ApplySpawn(w, key, at))
         == Mass(w) + w.config.spawnLength - (if key in w.worms then LiveLength(w.worms[key]) else 0)
  {
    GoodStep(w, SpawnEntry(key, at));
    var worms' := ApplySpawn(w, key, at).worms;
    if key in w.worms {
      LiveTotalUpdate(w.order, w.worms, key, worms'[key]);
    } else {
      LiveTotalAppend(w.order, worms', key);
      LiveTotalElsewhere(w.order, w.worms, key, worms'[key]);
    }
  }

  /** What a fatal move destroys: its body cells that are repeated, out of bounds, or already food. */
  function Lost(w: World, key: Pubkey, d: Direction): int
    requires Accepted(w, key, d)
  {
    var to := Target(w, key, d);
    var ate := to in w.food;
    var worm := Advanced(w.worms[key], to, ate);
    |worm.segments| - |Dropped(w.config, worm.segments) - (if ate then w.food - {to} else w.food)|
  }

  lemma DropAdds(food: set<Cell>, dropped: set<Cell>)
    ensures |food + dropped| == |food| + |dropped - food| && |dropped - food| <= |dropped|
  {
    assert food + dropped == food + (dropped - food);
    SubsetSize(dropped - food, dropped);
  }

  lemma MassOfMove(w: World, key: Pubkey, d: Direction)
    requires Good(w)
    ensures Good(ApplyMove(w, key, d).0)
    ensures ApplyMove(w, key, d).1 != Died ==> Mass(ApplyMove(w, key, d).0) == Mass(w)
    ensures ApplyMove(w, key, d).1 == Died ==> Mass(ApplyMove(w, key, d).0) == Mass(w) - Lost(w, key, d) && Lost(w, key, d) >= 0
  {
    GoodStep(w, MoveEntry(key, d));
    if Accepted(w, key, d) {
      var w' := ApplyMove(w, key, d).0;
      LiveTotalUpdate(w.order, w.worms, key, w'.worms[key]);
      var to := Target(w, key, d);
      var food := if to in w.food then w.food - {to} else w.food;
      var segments := Advanced(w.worms[key], to, to in w.food).segments;
      DropAdds(food, Dropped(w.config, segments));
      DroppedSize(w.config, segments);
    }
  }

  function SpawnCount(entries: seq<Entry>): nat {
    if entries == [] then 0
    else SpawnCount(entries[..|entries| - 1]) + if entries[|entries| - 1].SpawnEntry? then 1 else 0
  }

  /** The live length a spawn replaces. */
  function ReplacedBy(w: World, e: Entry): int {
    if e.SpawnEntry? && e.worm in w.worms then LiveLength(w.worms[e.worm]) else 0
  }

  /** The mass an entry destroys. */
  function LostTo(w: World, e: Entry): int {
    if e.MoveEntry? && Apply(w, e).1 == Died then Lost(w, e.worm, e.direction) else 0
  }

  lemma MassOfStep(w: World, e: Entry)
    requires Good(w)
    ensures Good(Apply(w, e).0)
    ensures Mass(Apply(w, e).0) ==
            Mass(w) + (if e.SpawnEntry? then w.config.spawnLength else 0) - ReplacedBy(w, e) - LostTo(w, e)
    ensures ReplacedBy(w, e) >= 0 && LostTo(w, e) >= 0
  {
    GoodStep(w, e);
    match e
    case SpawnEntry(key, at) => MassOfSpawn(w, key, at);
    case MoveEntry(key, d) => MassOfMove(w, key, d);
    case _ =>
  }

  function Replaced(w: World, entries: seq<Entry>): int {
    if entries == [] then 0
    else
      var before := entries[..|entries| - 1];
      Replaced(w, before) + ReplacedBy(Run(w, before), entries[|entries| - 1])
  }

  function Destroyed(w: World, entries: seq<Entry>): int {
    if entries == [] then 0
    else
      var before := entries[..|entries| - 1];
      Destroyed(w, before) + LostTo(Run(w, before), entries[|entries| - 1])
  }

  /** The ledger of a run: mass enters through spawns, and leaves only where a spawn replaces a live worm or a death
      destroys part of a body. So it never grows by more than the spawn length per spawn. */
  lemma {:induction false} MassOfRun(w: World, entries: seq<Entry>)
    requires Good(w)
    ensures Good(Run(w, entries))
    ensures Mass(Run(w, entries)) ==
            Mass(w) + w.config.spawnLength * SpawnCount(entries) - Replaced(w, entries) - Destroyed(w, entries)
    ensures Replaced(w, entries) >= 0 && Destroyed(w, entries) >= 0
  {
    if entries != [] {
      var before, e := entries[..|entries| - 1], entries[|entries| - 1];
      MassOfRun(w, before);
      GoodRun(w, before);
      MassOfStep(Run(w, before), e);
      SpawnsSnoc(w.config.spawnLength, entries);
      assert Mass(Run(w, entries)) == Mass(Apply(Run(w, before), e).0);
    }
  }

  lemma SpawnsSnoc(n: int, entries: seq<Entry>)
    requires entries != []
    ensures n * SpawnCount(entries) == n * SpawnCount(entries[..|entries| - 1]) + if entries[|entries| - 1].SpawnEntry? then n else 0
  {
    OneMore(n, SpawnCount(entries[..|entries| - 1]));
  }

  lemma OneMore(n: int, k: int)
    ensures n * (k + 1) == n * k + n
  {
  }
}
