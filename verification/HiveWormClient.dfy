/** examples/hiveworm-app/world.js and worm.js in their own form: objects updated in place. */
module HiveWormClient {
  import opened HiveWorm

  class WormObject {
    const pubkey: Pubkey
    var targetSegments: seq<Cell>
    var length: int
    var alive: bool

    constructor (pubkey: Pubkey)
      ensures this.pubkey == pubkey && Value() == NEW_WORM
    {
      this.pubkey := pubkey;
      targetSegments, length, alive := [], 3, true;
    }

    ghost function Value(): Worm
      reads this
    {
      Worm(targetSegments, length, alive)
    }

    method SetSegments(segments: seq<Cell>)
      modifies this`targetSegments
      ensures Value() == HiveWorm.SetSegments(old(Value()), segments)
    {
      if |segments| == 0 { return; }
      targetSegments := segments;
    }

    method Advance(to: Cell, ate: bool)
      requires targetSegments != []
      modifies this
      ensures Value() == Advanced(old(Value()), to, ate)
    {
      var newSegments := [to] + targetSegments;
      if !ate {
        newSegments := newSegments[..|newSegments| - 1];
      } else {
        length := length + 1;
      }
      SetSegments(newSegments);
    }

    method Respawn(length: int, segments: seq<Cell>)
      modifies this
      ensures Value() == HiveWorm.SetSegments(old(Value()).(length := length, alive := true), segments)
    {
      this.length := length;
      alive := true;
      SetSegments(segments);
    }
  }

  class WorldObject {
    var config: Config
    var order: seq<Pubkey>
    var worms: map<Pubkey, WormObject>
    var food: set<Cell>
    var deaths: seq<Death>
    var memorials: seq<Memorial>
    var tick: int

    /** Each worm sits under its own pubkey, and `order` lists keys of worms. */
    ghost predicate Valid()
      reads this, worms.Values
    {
      && (forall k | k in worms :: worms[k].pubkey == k)
      && (forall i | 0 <= i < |order| :: order[i] in worms)
    }

    ghost function WormValues(): (m: map<Pubkey, Worm>)
      reads this`worms, worms.Values
      ensures m.Keys == worms.Keys
      ensures forall k | k in worms :: m[k] == worms[k].Value()
    {
      map k | k in worms :: worms[k].Value()
    }

    ghost function Value(): World
      reads this, worms.Values
    {
      World(config, order, WormValues(), food, deaths, memorials, tick)
    }

    constructor (config: Config)
      ensures Valid() && Value() == NewWorld(config)
    {
      this.config := config;
      order, worms, food, deaths, memorials, tick := [], map[], {}, [], [], 0;
    }

    method ApplyEntry(e: Entry) returns (hint: Hint)
      requires Valid()
      modifies this, worms.Values
      ensures Valid() && fresh(worms.Values - old(worms.Values))
      ensures (Value(), hint) == Apply(old(Value()), e)
    {
      match e
      case SpawnEntry(key, at) =>
        DoSpawn(key, at);
        hint := Spawned;
      case MoveEntry(key, d) =>
        hint := DoMove(key, d);
      case MemorialEntry(key, epitaph) =>
        memorials := memorials + [Memorial(key, epitaph, tick)];
        hint := Remembered;
      case OtherEntry =>
        hint := Ignored;
    }

    method SpawnSegments(at: Cell) returns (segments: seq<Cell>)
      ensures segments == Repeated(at, config.spawnLength)
    {
      segments := [];
      var i := 0;
      while i < config.spawnLength
        invariant i == |segments|
        invariant i <= config.spawnLength || i == 0
        invariant forall j | 0 <= j < i :: segments[j] == at
      {
        segments := segments + [at];
        i := i + 1;
      }
    }

    /** The worm under `key`, created when there is none. */
    method WormFor(key: Pubkey) returns (worm: WormObject)
      requires Valid()
      modifies this`order, this`worms
      ensures Valid() && key in worms && worms[key] == worm
      ensures key in old(worms) ==> worms == old(worms)
      ensures key !in old(worms) ==> fresh(worm) && worms == old(worms)[key := worm]
      ensures order == if key in old(worms) then old(order) else old(order) + [key]
      ensures WormValues() == if key in old(worms) then old(WormValues()) else old(WormValues())[key := NEW_WORM]
    {
      if key !in worms {
        var created := new WormObject(key);
        worms := worms[key := created];
        order := order + [key];
        assert WormValues() == old(WormValues())[key := NEW_WORM];
      }
      worm := worms[key];
    }

    method Respawn(key: Pubkey, at: Cell)
      requires Valid() && key in worms
      modifies worms[key]
      ensures Valid()
      ensures WormValues() == old(WormValues())[key :=
        HiveWorm.SetSegments(old(WormValues())[key].(length := config.spawnLength, alive := true),
                             Repeated(at, config.spawnLength))]
    {
      var segments := SpawnSegments(at);
      worms[key].Respawn(config.spawnLength, segments);
    }

    method DoSpawn(key: Pubkey, at: Cell)
      requires Valid()
      modifies this`order, this`worms, worms.Values
      ensures Valid() && fresh(worms.Values - old(worms.Values))
      ensures Value() == ApplySpawn(old(Value()), key, at)
    {
      var worm := WormFor(key);
      Respawn(key, at);
    }

    /** The scan of one body for the target cell. */
    method Holds(worm: WormObject, to: Cell) returns (found: bool)
      ensures found <==> to in worm.targetSegments
    {
      var j := 0;
      while j < |worm.targetSegments|
        invariant 0 <= j <= |worm.targetSegments|
        invariant to !in worm.targetSegments[..j]
      {
        if worm.targetSegments[j] == to { return true; }
        j := j + 1;
      }
      return false;
    }

    /** The scan over the other worms for one whose body holds the target cell. */
    method FindCollider(key: Pubkey, to: Cell) returns (collidedWith: Pubkey)
      requires Valid()
      ensures collidedWith == Collider(order, WormValues(), key, to)
    {
      collidedWith := "";
      var i := 0;
      while i < |order|
        invariant 0 <= i <= |order|
        invariant collidedWith == ""
        invariant Collider(order, WormValues(), key, to) == Collider(order[i..], WormValues(), key, to)
      {
        assert order[i..][0] == order[i] && order[i..][1..] == order[i + 1..];
        var other := worms[order[i]];
        assert WormValues()[order[i]] == other.Value();
        if order[i] != key && other.alive {
          var found := Holds(other, to);
          if found { collidedWith := other.pubkey; }
          if collidedWith != "" { return; }
        }
        i := i + 1;
      }
    }

    /** A dead worm's in-bounds cells become food. */
    method DropSegments(segments: seq<Cell>)
      modifies this`food
      ensures food == old(food) + Dropped(config, segments)
    {
      var i := 0;
      while i < |segments|
        invariant 0 <= i <= |segments|
        invariant food == old(food) + Dropped(config, segments[..i])
      {
        var c := segments[i];
        if c.x >= 0 && c.y >= 0 && c.x < config.width && c.y < config.height {
          food := food + {c};
        }
        assert segments[..i + 1] == segments[..i] + [c];
        i := i + 1;
      }
      assert segments[..i] == segments;
    }

    /** The new body, the meal and, after a collision, the death of one worm. */
    method Advance(key: Pubkey, to: Cell, ate: bool, dies: bool)
      requires Valid() && key in worms && worms[key].targetSegments != []
      modifies worms[key]
      ensures Valid()
      ensures worms[key].Value() == var v := Advanced(old(worms[key].Value()), to, ate); v.(alive := v.alive && !dies)
      ensures WormValues() == old(WormValues())[key := worms[key].Value()]
    {
      var worm := worms[key];
      worm.Advance(to, ate);
      if dies { worm.alive := false; }
    }

    method Settle(key: Pubkey, to: Cell, collidedWith: Pubkey) returns (hint: Hint)
      requires Valid() && key in worms && worms[key].targetSegments != [] && worms[key].alive
      modifies this`food, this`deaths, worms[key]
      ensures Valid()
      ensures (Value(), hint) == Resolve(old(Value()), key, to, collidedWith)
    {
      ghost var w := Value();
      assert w.worms[key] == worms[key].Value();
      var ate := to in food;
      if ate { food := food - {to}; }
      Advance(key, to, ate, collidedWith != "");
      if collidedWith != "" {
        DropSegments(worms[key].targetSegments);
        deaths := deaths + [Death(key, to, collidedWith)];
        hint := Died;
      } else {
        hint := if ate then Ate else Moved;
      }
    }

    method DoMove(key: Pubkey, d: Direction) returns (hint: Hint)
      requires Valid()
      modifies this`food, this`deaths, worms.Values
      ensures Valid()
      ensures (Value(), hint) == ApplyMove(old(Value()), key, d)
    {
      if key !in worms || !worms[key].alive { return Ignored; }
      if |worms[key].targetSegments| == 0 || d == NoDirection { return Ignored; }
      var to := Shift(worms[key].targetSegments[0], d);
      var collidedWith := FindCollider(key, to);
      hint := Settle(key, to, collidedWith);
    }
  }
}
