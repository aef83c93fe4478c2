/**
 * The objects of the labyrinth that change in place: the background with its
 * wall set, doors and object list (background.py), holdable items
 * (weapons.py), the player (player.py), monsters (monster.py), chests
 * (chest.py), plants (plant.py) and the light switch (button.py).
 *
 * They live in one module because they refer to one another: an item knows
 * its wielder and the player its held item, a door knows its background and
 * the background its doors.
 */
module Entities {
  import opened Common
  import opened Geometry
  import opened Walls

  // ------------------------------------------------------------ kinds

  /** Holdable.loc: where an item is. */
  datatype Loc = Ground | Hands | Backpack | InChest

  /** The holdable classes: the six Weapon subclasses, Key with its door id, Gem and Potion. */
  datatype ItemKind = Sword | Trident | BoxingGlove | Shovel | Flashlight | FlameThrower | Key(id: int) | Gem | Potion

  /** The Monster subclasses. */
  datatype MonsterKind = Lion | Cerberus | Hydra | GoldenDeer | Cattle | Boar

  /** The attack points each Monster subclass passes to its parent. */
  function AttackPoints(k: MonsterKind): (pts: int)
    ensures 5 <= pts <= 10
  {
    match k
    case Lion => 5
    case Cerberus => 6
    case Hydra => 7
    case GoldenDeer => 8
    case Cattle => 9
    case Boar => 10
  }

  /** No two kinds of monster hit with the same attack points. */
  lemma AttackPointsDistinct(j: MonsterKind, k: MonsterKind)
    ensures AttackPoints(j) == AttackPoints(k) <==> j == k
  {
  }

  // ------------------------------------------------- facing and offsets

  /** The sprite frame that faces direction `d`: 0 down, 1 right, 2 left, 3 up. */
  function DirFrame(d: Dir): (f: int)
    ensures 0 <= f < 4
  {
    match d
    case Down => 0
    case Right => 1
    case Left => 2
    case Up => 3
  }

  /** A displacement of `k` pixels in direction `d` (screen y grows downwards). */
  function Step(d: Dir, k: int): (int, int)
  {
    match d
    case Left => (-k, 0)
    case Right => (k, 0)
    case Up => (0, -k)
    case Down => (0, k)
  }

  /** The 10-pixel shift `extend` gives a sprite facing frame `frame`; other frames are not shifted. */
  function ExtendShift(frame: int): (int, int)
  {
    if frame == 0 then (0, 10)
    else if frame == 1 then (10, 0)
    else if frame == 2 then (-10, 0)
    else if frame == 3 then (0, -10)
    else (0, 0)
  }

  /** An extended item or monster is pushed 10 pixels towards the side it faces. */
  lemma ExtendFollowsFacing(d: Dir)
    ensures ExtendShift(DirFrame(d)) == Step(d, 10)
  {
  }

  /** Holdable.draw: where a held item sits relative to its wielder for each facing frame. */
  function HeldOffset(frame: int): (int, int)
    requires 0 <= frame < 4
  {
    if frame == 0 then (-5, 70)
    else if frame == 1 then (60, 25)
    else if frame == 2 then (-45, 25)
    else (-5, 0)
  }

  /** Whether (x1, y1) is (x0, y0) or one step of `k` pixels away from it along one axis. */
  predicate OneStepOrStill(x0: int, y0: int, x1: int, y1: int, k: int)
  {
    (x1 == x0 && y1 == y0) || exists d :: (x1, y1) == (x0 + Step(d, k).0, y0 + Step(d, k).1)
  }

  // ------------------------------------------------------- hit flash

  /**
   * One call of the hit counter in Player.place: while `hit`, the counter
   * climbs to 21 and the call that finds it above 20 clears both.
   */
  function HitTick(hit: bool, count: int): (r: (bool, int))
    ensures 0 <= count <= 21 ==> 0 <= r.1 <= 21
    ensures !r.0 ==> r.1 == 0 || r == (hit, count)
  {
    if !hit then (hit, count)
    else if count <= 20 then (true, count + 1)
    else (false, 0)
  }

  /** The counter after `k` calls. */
  function HitTicks(hit: bool, count: int, k: nat): (bool, int)
    decreases k
  {
    if k == 0 then (hit, count) else var r := HitTick(hit, count); HitTicks(r.0, r.1, k - 1)
  }

  /** From a fresh hit, the flash lasts while the counter climbs: k calls leave it at k while k <= 21. */
  lemma {:induction false} HitFlashClimbs(count: nat, k: nat)
    requires count + k <= 21
    ensures HitTicks(true, count, k) == (true, count + k)
    decreases k
  {
    if k > 0 {
      HitFlashClimbs(count + 1, k - 1);
    }
  }

  /** A hit is cleared by the 22nd call of the counter after it, and not before. */
  lemma HitFlashEnds()
    ensures HitTicks(true, 0, 21) == (true, 21)
    ensures HitTicks(true, 0, 22) == (false, 0)
  {
    HitFlashClimbs(0, 21);
    HitTicksSplit(true, 0, 21, 1);
  }

  /** Running the counter k + j times is running it k times and then j times. */
  lemma {:induction false} HitTicksSplit(hit: bool, count: int, k: nat, j: nat)
    ensures HitTicks(hit, count, k + j) == HitTicks(HitTicks(hit, count, k).0, HitTicks(hit, count, k).1, j)
    decreases k
  {
    if k > 0 {
      var r := HitTick(hit, count);
      HitTicksSplit(r.0, r.1, k - 1, j);
    }
  }

  // ---------------------------------------------------------- sprites

  /**
   * Anything that can sit in Background.background_obj or be touched: the
   * source keeps these in one untyped list.
   */
  datatype Sprite =
    | ItemS(item: Holdable)
    | PlantS(plant: Plant)
    | MonsterS(monster: Monster)
    | ChestS(chest: Chest)
    | SwitchS(switch: Switch)
    | DoorS(door: Door)
  {
    function Obj(): object
    {
      match this
      case ItemS(o) => o
      case PlantS(o) => o
      case MonsterS(o) => o
      case ChestS(o) => o
      case SwitchS(o) => o
      case DoorS(o) => o
    }

    function XBg(): int
      reads Obj()
    {
      match this
      case ItemS(o) => o.x_bg
      case PlantS(o) => o.x_bg
      case MonsterS(o) => o.x_bg
      case ChestS(o) => o.x_bg
      case SwitchS(o) => o.x_bg
      case DoorS(o) => o.x_bg
    }

    function YBg(): int
      reads Obj()
    {
      match this
      case ItemS(o) => o.y_bg
      case PlantS(o) => o.y_bg
      case MonsterS(o) => o.y_bg
      case ChestS(o) => o.y_bg
      case SwitchS(o) => o.y_bg
      case DoorS(o) => o.y_bg
    }

    function Width(): nat
    {
      match this
      case ItemS(o) => o.width
      case PlantS(o) => o.width
      case MonsterS(o) => o.width
      case ChestS(o) => o.width
      case SwitchS(o) => o.width
      case DoorS(o) => o.width
    }

    function Height(): nat
    {
      match this
      case ItemS(o) => o.height
      case PlantS(o) => o.height
      case MonsterS(o) => o.height
      case ChestS(o) => o.height
      case SwitchS(o) => o.height
      case DoorS(o) => o.height
    }

    /** The walk_over flag; doors have none (they are never background objects). */
    predicate WalkOver()
      requires !DoorS?
    {
      match this
      case ItemS(o) => o.walk_over
      case PlantS(o) => o.walk_over
      case MonsterS(o) => o.walk_over
      case ChestS(o) => o.walk_over
      case SwitchS(o) => o.walk_over
    }

    /** Whether the object has window coordinates x and y; plants and chests do not. */
    predicate HasWindowPos()
    {
      !PlantS? && !ChestS?
    }

    /** The box at window coordinates. */
    function WinBox(): Box
      requires HasWindowPos()
      reads Obj()
    {
      match this
      case ItemS(o) => Box(o.x, o.y, o.width, o.height)
      case MonsterS(o) => Box(o.x, o.y, o.width, o.height)
      case SwitchS(o) => Box(o.x_bg, o.y_bg, o.width, o.height)
      case DoorS(o) => Box(o.x, o.y, o.width, o.height)
    }

    /** The box at background coordinates seen from stage position (sx, sy). */
    function BgBox(sx: int, sy: int): Box
      reads Obj()
    {
      Box(XBg() - sx, YBg() - sy, Width(), Height())
    }
  }

  // ------------------------------------------------------ light switch

  /** The light switch (BackgroundButton): a fixed sprite on the background. */
  class Switch {
    const x_bg: int
    const y_bg: int
    const width: nat
    const height: nat
    const walk_over: bool
    var frame: int

    constructor (x: int, y: int, w: nat, h: nat)
      ensures x_bg == x && y_bg == y && width == w && height == h
      ensures !walk_over && frame == 0
    {
      x_bg, y_bg, width, height := x, y, w, h;
      walk_over := false;
      frame := 0;
    }
  }

  // ------------------------------------------------------------ plant

  /** A plant that a shovel digs up in four frames and the player then eats. */
  class Plant {
    const x_bg: int
    const y_bg: int
    const width: nat
    const height: nat
    var frame: int
    const walk_over: bool
    var dig_lag: int
    var pos_row: int
    var pos_col: int

    constructor (x: int, y: int, w: nat, h: nat)
      ensures x_bg == x && y_bg == y && width == w && height == h
      ensures frame == 0 && !walk_over && dig_lag == 0
    {
      x_bg, y_bg, width, height := x, y, w, h;
      frame := 0;
      walk_over := false;
      dig_lag := 0;
    }

    /** Plant.eat: the eater gains 20 health, capped at 100, and this plant leaves the background. */
    method Eat(player: Player, bg: Background)
      requires PlantS(this) in bg.background_obj
      modifies player`health, bg`background_obj
      ensures player.health == Min(old(player.health) + 20, 100)
      ensures bg.background_obj == RemoveFirst(old(bg.background_obj), PlantS(this))
    {
      player.IncreaseHealth(20);
      bg.background_obj := RemoveFirst(bg.background_obj, PlantS(this));
    }
  }

  // ----------------------------------------------------------- player

  /** The player character; monsters share its position and health logic. */
  class Player {
    const width: nat
    const height: nat
    const x: int
    const y: int
    var held_item: Holdable?
    var items_list: seq<Holdable>
    var health: int
    var pos_row: int
    var pos_col: int
    var hit: bool
    var hit_count: int

    constructor (w: nat, h: nat, items: seq<Holdable>)
      ensures width == w && height == h && x == 500 - w / 2 && y == 400 - h / 2
      ensures held_item == null && items_list == items && health == 100
      ensures pos_row == 1 && pos_col == 1 && !hit && hit_count == 0
    {
      width, height := w, h;
      x, y := 500 - w / 2, 400 - h / 2;
      held_item := null;
      items_list := items;
      health := 100;
      pos_row, pos_col := 1, 1;
      hit, hit_count := false, 0;
    }

    /** The player's box in window coordinates: it is always drawn centred. */
    function WinBox(): Box
    {
      Box(x, y, width, height)
    }

    /** Player.get_new_loc: the player has no background position, so the stage position is used. */
    method GetNewLoc(bg: Background)
      modifies this`pos_row, this`pos_col
      ensures Cell(pos_row, pos_col) == CharacterCell(bg.stagePosX, bg.stagePosY)
    {
      pos_col := (bg.stagePosX - 1050 + 430) / 620 + 1;
      pos_row := (bg.stagePosY - 900 + 365) / 620 + 1;
    }

    /** The hit-counter part of Player.place. */
    method Place()
      modifies this`hit, this`hit_count
      ensures (hit, hit_count) == HitTick(old(hit), old(hit_count))
    {
      if hit {
        if hit_count <= 20 {
          hit_count := hit_count + 1;
        } else {
          hit_count := 0;
          hit := false;
        }
      }
    }

    /**
     * Player.touching at stage position (sx, sy): a half-open overlap test
     * whose other box is placed by whether the object is on the background
     * and whether it is a monster.
     */
    predicate TouchingAt(other: Sprite, bg: Background, sx: int, sy: int, monster: bool)
      requires other in bg.background_obj || other.HasWindowPos()
      reads bg`background_obj, other.Obj()
    {
      var theirs :=
        if other in bg.background_obj && monster then
          Box(other.XBg() - (sx - 500), other.YBg() - (sy - 400), other.Width(), other.Height())
        else if other in bg.background_obj then other.BgBox(sx, sy)
        else other.WinBox();
      Touch(WinBox(), theirs)
    }

    /** Player.decrease_health: no floor at 0, and the player is marked as hit. */
    method DecreaseHealth(pts: int)
      modifies this`health, this`hit
      ensures health == old(health) - pts && hit
    {
      health := health - pts;
      hit := true;
    }

    /** Player.increase_health: capped at 100. */
    method IncreaseHealth(pts: int)
      modifies this`health
      ensures health == Min(old(health) + pts, 100)
    {
      health := Min(health + pts, 100);
    }
  }

  /** Healing never lifts health above the cap, and healing from at most 100 keeps it at most 100. */
  lemma HealingIsCapped(health: int, pts: int)
    requires pts >= 0
    ensures Min(health + pts, 100) <= 100
    ensures health <= 100 ==> health <= Min(health + pts, 100)
  {
  }

  // --------------------------------------------------------- holdable

  /** An item the player can hold: weapons, keys, gems and the potion. */
  class Holdable {
    const kind: ItemKind
    const width: nat
    const height: nat
    var frame: int
    const walk_over: bool
    var x: int
    var y: int
    var x_bg: int
    var y_bg: int
    var wielder: Player?
    var loc: Loc
    var times_picked_up: int
    /** Flashlight.state: whether the flashlight is on (only flashlights use it). */
    var state: bool
    var pos_row: int
    var pos_col: int

    constructor (owner: Player?, where: Loc, k: ItemKind, xb: int, yb: int, w: nat, h: nat)
      modifies owner
      ensures kind == k && width == w && height == h
      ensures frame == 0 && walk_over && x == 500 && y == 400 && x_bg == xb && y_bg == yb
      ensures wielder == owner && loc == where && times_picked_up == 0 && !state
      ensures owner != null ==> owner.held_item == this
      ensures owner != null ==> owner.items_list == old(owner.items_list) && owner.health == old(owner.health)
    {
      kind, width, height := k, w, h;
      frame := 0;
      walk_over := true;
      x, y := 500, 400;
      x_bg, y_bg := xb, yb;
      wielder := owner;
      loc := where;
      times_picked_up := 0;
      state := false;
      new;
      if owner != null {
        owner.held_item := this;
      }
    }

    /** The item's own box seen from stage position (sx, sy). */
    function BgBox(sx: int, sy: int): Box
      reads this
    {
      Box(x_bg - sx, y_bg - sy, width, height)
    }

    /**
     * Holdable.touching at stage position (sx, sy): a half-open overlap of
     * the item's box with the other object's, which is placed from its
     * background position when it is on the background or a door, and from
     * its window position otherwise.
     */
    predicate TouchingAt(other: Sprite, bg: Background, sx: int, sy: int)
      requires bg.OnMap(other) || other.HasWindowPos()
      reads this, bg`background_obj, bg`door_list, other.Obj()
    {
      Touch(BgBox(sx, sy), if bg.OnMap(other) then other.BgBox(sx, sy) else other.WinBox())
    }

    /** Holdable.touching at the current stage position. */
    predicate Touching(other: Sprite, bg: Background)
      requires bg.OnMap(other) || other.HasWindowPos()
      reads this, bg, other.Obj()
    {
      TouchingAt(other, bg, bg.stagePosX, bg.stagePosY)
    }

    /**
     * Holdable.touching with the player as the other object: the player is
     * never a background object or a door, so its window box is used.
     */
    predicate TouchingPlayer(p: Player, bg: Background)
      reads this, bg
    {
      Touch(BgBox(bg.stagePosX, bg.stagePosY), p.WinBox())
    }

    /** Holdable.detect_collision: a half-open overlap of the two window boxes. */
    predicate DetectCollision(other: Sprite)
      requires other.HasWindowPos()
      reads this, other.Obj()
    {
      Touch(Box(x, y, width, height), other.WinBox())
    }

    /**
     * Holdable.draw (position arithmetic only): a held item is put at its
     * wielder's position plus the offset for its frame, and its background
     * position follows, 10 pixels further along the facing side when
     * extended. Items not in hands keep their position.
     */
    method Draw(bg: Background, extend: bool)
      requires loc == Hands ==> wielder != null
      modifies this`x, this`y, this`x_bg, this`y_bg
      ensures loc != Hands ==> x == old(x) && y == old(y) && x_bg == old(x_bg) && y_bg == old(y_bg)
      ensures loc == Hands && 0 <= frame < 4 ==>
        x == wielder.x + HeldOffset(frame).0 && y == wielder.y + HeldOffset(frame).1
      ensures loc == Hands && !(0 <= frame < 4) ==> x == old(x) && y == old(y)
      ensures loc == Hands ==>
        x_bg == bg.stagePosX + x + (if extend then ExtendShift(frame).0 else 0) &&
        y_bg == bg.stagePosY + y + (if extend then ExtendShift(frame).1 else 0)
    {
      if loc == Hands {
        if frame == 0 {
          x, y := wielder.x - 5, wielder.y + 70;
        } else if frame == 1 {
          x, y := wielder.x + 60, wielder.y + 25;
        } else if frame == 2 {
          x, y := wielder.x - 45, wielder.y + 25;
        } else if frame == 3 {
          x, y := wielder.x - 5, wielder.y;
        }
        x_bg := bg.stagePosX + x;
        y_bg := bg.stagePosY + y;
        if extend {
          Extend(bg);
        }
      }
    }

    /** Holdable.extend: the background position of the item pushed 10 pixels along its facing side. */
    method Extend(bg: Background)
      modifies this`x_bg, this`y_bg
      ensures x_bg == bg.stagePosX + x + ExtendShift(frame).0
      ensures y_bg == bg.stagePosY + y + ExtendShift(frame).1
    {
      var ex, ey := x, y;
      if frame == 0 {
        ey := ey + 10;
      } else if frame == 1 {
        ex := ex + 10;
      } else if frame == 2 {
        ex := ex - 10;
      } else if frame == 3 {
        ey := ey - 10;
      }
      x_bg := bg.stagePosX + ex;
      y_bg := bg.stagePosY + ey;
    }

    /** Holdable.pick_up: from the background into the player's hands and item list. */
    method PickUp(bg: Background, player: Player)
      requires ItemS(this) in bg.background_obj
      modifies bg`background_obj, this`wielder, this`loc, this`times_picked_up, player`held_item, player`items_list
      ensures bg.background_obj == RemoveFirst(old(bg.background_obj), ItemS(this))
      ensures wielder == player && player.held_item == this && loc == Hands
      ensures player.items_list == old(player.items_list) + [this]
      ensures times_picked_up == old(times_picked_up) + 1
    {
      bg.background_obj := RemoveFirst(bg.background_obj, ItemS(this));
      wielder := player;
      player.held_item := this;
      loc := Hands;
      player.items_list := player.items_list + [this];
      times_picked_up := times_picked_up + 1;
    }

    /** Holdable.drop: out of the hands and the item list, onto the background where it is drawn. */
    method Drop(bg: Background, player: Player)
      requires this in player.items_list
      modifies player`held_item, player`items_list, this`wielder, this`loc, this`x_bg, this`y_bg, bg`background_obj
      ensures player.held_item == null && wielder == null && loc == Ground
      ensures player.items_list == RemoveFirst(old(player.items_list), this)
      ensures x_bg == bg.stagePosX + x && y_bg == bg.stagePosY + y
      ensures bg.background_obj == old(bg.background_obj) + [ItemS(this)]
    {
      player.held_item := null;
      wielder := null;
      loc := Ground;
      player.items_list := RemoveFirst(player.items_list, this);
      x_bg := bg.stagePosX + x;
      y_bg := bg.stagePosY + y;
      bg.background_obj := bg.background_obj + [ItemS(this)];
    }

    /** Holdable.place_in_backpack: the hands are emptied; the item stays in the item list. */
    method PlaceInBackpack(player: Player)
      modifies player`held_item, this`wielder, this`loc
      ensures player.held_item == null && wielder == null && loc == Backpack
    {
      player.held_item := null;
      wielder := null;
      loc := Backpack;
    }

    /** Holdable.select_from_backpack: the item goes back into the player's hands. */
    method SelectFromBackpack(player: Player)
      modifies player`held_item, this`wielder, this`loc
      ensures wielder == player && player.held_item == this && loc == Hands
    {
      wielder := player;
      player.held_item := this;
      loc := Hands;
    }

    /** Gem.in_space: the item's background position lies strictly inside the bounds. */
    predicate InSpace(xLow: int, xHigh: int, yLow: int, yHigh: int)
      reads this
    {
      Walls.InSpace(x_bg, y_bg, xLow, xHigh, yLow, yHigh)
    }

    /** Flashlight.change_state. */
    method ChangeState()
      modifies this`state
      ensures state == !old(state)
    {
      if state {
        TurnOff();
      } else {
        TurnOn();
      }
    }

    /** Flashlight.turn_on. */
    method TurnOn()
      modifies this`state
      ensures state
    {
      state := true;
    }

    /** Flashlight.turn_off. */
    method TurnOff()
      modifies this`state
      ensures !state
    {
      state := false;
    }

    /**
     * Shovel.dig: a plant at frame 3 that the shovel touches is eaten by the
     * shovel's wielder and goes to frame 4; a plant at frame 2 or below that
     * is on the background and touched moves one frame on. One call never
     * advances a plant by more than one frame. The game digs only with the
     * shovel in the player's hand, so the shovel has a wielder.
     */
    method Dig(plant: Plant, bg: Background)
      requires plant.frame == 3 ==> PlantS(plant) in bg.background_obj
      requires wielder != null
      modifies plant`frame, bg`background_obj, wielder`health
      ensures plant.frame == old(plant.frame) || plant.frame == old(plant.frame) + 1
      ensures old(plant.frame) == 3 && old(Touching(PlantS(plant), bg)) ==>
        plant.frame == 4 && wielder.health == Min(old(wielder.health) + 20, 100) &&
        bg.background_obj == RemoveFirst(old(bg.background_obj), PlantS(plant))
      ensures old(plant.frame) <= 2 && PlantS(plant) in old(bg.background_obj) && old(Touching(PlantS(plant), bg)) ==>
        plant.frame == old(plant.frame) + 1
      ensures !(old(plant.frame) == 3 && old(Touching(PlantS(plant), bg))) ==>
        bg.background_obj == old(bg.background_obj) && wielder.health == old(wielder.health)
      ensures plant.frame != old(plant.frame) ==> PlantS(plant) in old(bg.background_obj) && old(Touching(PlantS(plant), bg))
    {
      if plant.frame == 3 && Touching(PlantS(plant), bg) {
        plant.Eat(wielder, bg);
        plant.frame := plant.frame + 1;
      }
      if PlantS(plant) in bg.background_obj && Touching(PlantS(plant), bg) && plant.frame <= 2 {
        plant.frame := plant.frame + 1;
      }
    }
  }

  // ------------------------------------------------------------ chest

  /** A chest in a monster's room that holds one item. */
  class Chest {
    const x_bg: int
    const y_bg: int
    const width: nat
    const height: nat
    var content: Holdable?
    const walk_over: bool
    var frame: int
    var state: bool
    var lag: int
    var x: int
    var y: int
    var pos_row: int
    var pos_col: int

    constructor (xb: int, yb: int, w: nat, h: nat)
      ensures x_bg == xb && y_bg == yb && width == w && height == h
      ensures content == null && !walk_over && frame == 0 && !state && lag == 0
    {
      x_bg, y_bg, width, height := xb, yb, w, h;
      content := null;
      walk_over := false;
      frame := 0;
      state := false;
      lag := 0;
    }

    /** The chest's two consistent looks: closed (frame 0) or open (frame 1). */
    predicate Consistent()
      reads this
    {
      (frame == 0 && !state) || (frame == 1 && state)
    }

    /** Chest.place_object: the object moves to the chest's position and into the chest. */
    method PlaceObject(obj: Holdable)
      modifies obj`x_bg, obj`y_bg, obj`loc, this`content
      ensures obj.x_bg == x_bg && obj.y_bg == y_bg && content == obj && obj.loc == InChest
    {
      obj.x_bg := x_bg;
      obj.y_bg := y_bg;
      content := obj;
      content.loc := InChest;
    }

    /**
     * Chest.touching with the player: the closed overlap, shrunk by
     * `tol`, of the chest's box with the held item's box when the player
     * holds something and with the player's box otherwise.
     */
    predicate TouchingPlayer(p: Player, bg: Background, tol: int)
      reads bg, p, p.held_item
    {
      var mine := Box(x_bg - bg.stagePosX, y_bg - bg.stagePosY, width, height);
      var theirs := if p.held_item != null then Box(p.held_item.x, p.held_item.y, p.held_item.width, p.held_item.height) else p.WinBox();
      TouchWithin(mine, theirs, tol)
    }

    /** Chest.open: only when the player is within reach (tolerance -20). */
    method Open(p: Player, bg: Background)
      modifies this`frame, this`state
      ensures TouchingPlayer(p, bg, -20) ==> frame == 1 && state
      ensures !TouchingPlayer(p, bg, -20) ==> frame == old(frame) && state == old(state)
    {
      if TouchingPlayer(p, bg, -20) {
        frame := 1;
        state := true;
      }
    }

    /** Chest.close: only when the player is within reach (tolerance -20). */
    method Close(p: Player, bg: Background)
      modifies this`frame, this`state
      ensures TouchingPlayer(p, bg, -20) ==> frame == 0 && !state
      ensures !TouchingPlayer(p, bg, -20) ==> frame == old(frame) && state == old(state)
    {
      if TouchingPlayer(p, bg, -20) {
        frame := 0;
        state := false;
      }
    }

    /** Chest.toggle: flips the chest when the player is within reach; frame 1 exactly when open. */
    method Toggle(p: Player, bg: Background)
      requires Consistent()
      modifies this`frame, this`state
      ensures Consistent()
      ensures TouchingPlayer(p, bg, -20) ==> state == !old(state)
      ensures !TouchingPlayer(p, bg, -20) ==> frame == old(frame) && state == old(state)
    {
      if state {
        Close(p, bg);
      } else {
        Open(p, bg);
      }
    }

    /**
     * Chest.pick_up_object: when the player is within reach (tolerance -10)
     * and the chest is open, its content is picked up and the chest emptied;
     * otherwise nothing changes.
     */
    method PickUpObject(p: Player, bg: Background)
      requires content != null
      requires TouchingPlayer(p, bg, -10) && state ==> ItemS(content) in bg.background_obj
      modifies this`content, content`wielder, content`loc, content`times_picked_up, p`held_item, p`items_list, bg`background_obj
      ensures old(TouchingPlayer(p, bg, -10)) && state ==>
        content == null && p.held_item == old(content) && old(content).loc == Hands && old(content).wielder == p &&
        p.items_list == old(p.items_list) + [old(content)] &&
        old(content).times_picked_up == old(content.times_picked_up) + 1 &&
        bg.background_obj == RemoveFirst(old(bg.background_obj), ItemS(old(content)))
      ensures !(old(TouchingPlayer(p, bg, -10)) && state) ==>
        content == old(content) && p.held_item == old(p.held_item) && p.items_list == old(p.items_list) &&
        content.loc == old(content.loc) && content.wielder == old(content.wielder) &&
        content.times_picked_up == old(content.times_picked_up) && bg.background_obj == old(bg.background_obj)
    {
      if TouchingPlayer(p, bg, -10) && state {
        content.PickUp(bg, p);
        content := null;
      }
    }

    /** Chest.place (position arithmetic only): window positions of the chest and of an open chest's content. */
    method Place(bg: Background)
      modifies this`x, this`y, content
      ensures x == x_bg - bg.stagePosX && y == y_bg - bg.stagePosY
      ensures content != null && state ==>
        content.x == content.x_bg - bg.stagePosX + 20 && content.y == content.y_bg - bg.stagePosY + 7
      ensures content != null ==>
        (content.x_bg == old(content.x_bg) && content.y_bg == old(content.y_bg) &&
         content.loc == old(content.loc) && content.wielder == old(content.wielder) &&
         content.times_picked_up == old(content.times_picked_up) && content.frame == old(content.frame) &&
         content.state == old(content.state))
      ensures content != null && !state ==> content.x == old(content.x) && content.y == old(content.y)
    {
      x := x_bg - bg.stagePosX;
      y := y_bg - bg.stagePosY;
      if content != null && state {
        content.x := content.x_bg - bg.stagePosX + 20;
        content.y := content.y_bg - bg.stagePosY + 7;
      }
    }
  }

  // ---------------------------------------------------------- monster

  /** The steering decision track_player draws at random: stay, head for a direction, or keep the last heading. */
  datatype Steer = Hold | Toward(d: Dir) | KeepHeading

  /** A monster: it tracks the player, bumps into walls and attacks on a 50-tick cooldown. */
  class Monster {
    const kind: MonsterKind
    var x_bg: int
    var y_bg: int
    const attack_pts: int
    const speed: int
    var state: bool
    var frame: int
    const walk_over: bool
    var previous: Option<Dir>
    var collide: Option<Dir>
    const width: nat
    const height: nat
    var x: int
    var y: int
    var health: int
    var pos_row: int
    var pos_col: int
    var hit: bool
    var hit_count: int
    var n: int

    constructor (k: MonsterKind, xb: int, yb: int, w: nat, h: nat)
      ensures kind == k && x_bg == xb && y_bg == yb && attack_pts == AttackPoints(k) && speed == 5 && !state
      ensures frame == 1 && !walk_over && previous == None && collide == None
      ensures width == w && height == h && x == 500 - w / 2 && y == 400 - h / 2
      ensures health == 100 && pos_row == 1 && pos_col == 1 && !hit && hit_count == 0 && n == 0
    {
      kind, x_bg, y_bg := k, xb, yb;
      attack_pts := AttackPoints(k);
      speed := 5;
      state := false;
      frame := 1;
      walk_over := false;
      previous, collide := None, None;
      width, height := w, h;
      x, y := 500 - w / 2, 400 - h / 2;
      health := 100;
      pos_row, pos_col := 1, 1;
      hit, hit_count := false, 0;
      n := 0;
    }

    function WinBox(): Box
      reads this
    {
      Box(x, y, width, height)
    }

    /** The monster's box as touching compares it with a door's background box. */
    function DoorBox(): Box
      reads this
    {
      Box(x_bg + 505, y_bg + 390, width, height)
    }

    /**
     * The outcome of touching a door: a half-open overlap, and the contact
     * side recorded in `collide` when there is one.
     */
    function DoorContact(d: Door, tol: int): (bool, Option<Dir>)
      reads this
    {
      var o := Box(d.x_bg, d.y_bg, d.width, d.height);
      var t := Touch(DoorBox(), o);
      (t, if t && ContactSide(DoorBox(), o, tol).Some? then ContactSide(DoorBox(), o, tol) else collide)
    }

    /**
     * The outcome of touching an object at window box `o`: the closed overlap
     * shrunk by `tol`, and the contact side recorded in `collide`.
     */
    function WindowContact(o: Box, tol: int): (bool, Option<Dir>)
      reads this
    {
      var t := TouchWithin(WinBox(), o, tol);
      (t, if t && ContactSide(WinBox(), o, tol).Some? then ContactSide(WinBox(), o, tol) else collide)
    }

    /**
     * Monster.touching: doors of the background use the door test, other
     * background objects report no contact, and anything else (the player,
     * or the monster itself) uses the window test.
     */
    function Contact(other: Sprite, bg: Background, tol: int): (bool, Option<Dir>)
      requires (other.DoorS? && other.door in bg.door_list) || (other in bg.background_obj && other != MonsterS(this)) || other.HasWindowPos()
      reads this, bg, other.Obj()
    {
      if other.DoorS? && other.door in bg.door_list then DoorContact(other.door, tol)
      else if other in bg.background_obj && other != MonsterS(this) then (false, collide)
      else WindowContact(other.WinBox(), tol)
    }

    /** A contact side is only recorded when the objects touch. */
    lemma ContactRecordsOnlyOnTouch(other: Sprite, bg: Background, tol: int)
      requires (other.DoorS? && other.door in bg.door_list) || (other in bg.background_obj && other != MonsterS(this)) || other.HasWindowPos()
      ensures !Contact(other, bg, tol).0 ==> Contact(other, bg, tol).1 == collide
      ensures Contact(other, bg, tol).1 != collide ==> Contact(other, bg, tol).1.Some?
    {
    }

    /** Monster.touching; it records the contact side in `collide`. */
    method Touching(other: Sprite, bg: Background, tol: int) returns (r: bool)
      requires (other.DoorS? && other.door in bg.door_list) || (other in bg.background_obj && other != MonsterS(this)) || other.HasWindowPos()
      modifies this`collide
      ensures (r, collide) == old(Contact(other, bg, tol))
    {
      if other.DoorS? && other.door in bg.door_list {
        var o := Box(other.door.x_bg, other.door.y_bg, other.door.width, other.door.height);
        r := Touch(DoorBox(), o);
        if r {
          var side := ContactSide(DoorBox(), o, tol);
          if side.Some? {
            collide := side;
          }
        }
      } else if other in bg.background_obj && other != MonsterS(this) {
        r := false;
      } else {
        r := TouchingBox(other.WinBox(), tol);
      }
    }

    /** Monster.touching with the player, who is never a door or a background object. */
    method TouchingPlayer(p: Player, tol: int) returns (r: bool)
      modifies this`collide
      ensures (r, collide) == old(WindowContact(p.WinBox(), tol))
    {
      r := TouchingBox(p.WinBox(), tol);
    }

    /** The window branch of Monster.touching. */
    method TouchingBox(o: Box, tol: int) returns (r: bool)
      modifies this`collide
      ensures (r, collide) == old(WindowContact(o, tol))
    {
      r := TouchWithin(WinBox(), o, tol);
      if r {
        var t := Abs(tol);
        if x >= o.x + o.w - t && x <= o.x + o.w + t {
          collide := Some(Left);
        } else if x + width >= o.x - t && x + width <= o.x + t {
          collide := Some(Right);
        } else if y >= o.y + o.h - t && y <= o.y + o.h + t {
          collide := Some(Up);
        } else if y + height >= o.y - t && y + height <= o.y + t {
          collide := Some(Down);
        }
      }
    }

    /**
     * move_left, move_right, move_up and move_down: step `speed` pixels in
     * direction `d` and face it; on a wall hit the step is undone and a move
     * at right angles is tried, up or down after a horizontal move and left
     * or right after a vertical one, as `recovery` says (true picks up or
     * left). A move that returns true ends one step from the start and clear
     * of the walls; when `recovery` runs out the monster stays where it was.
     */
    method Move(bg: Background, d: Dir, recovery: seq<bool>) returns (moved: bool)
      modifies this`x_bg, this`y_bg, this`frame, this`previous
      decreases |recovery|
      ensures previous.Some? && frame == DirFrame(previous.value)
      ensures !moved ==> x_bg == old(x_bg) && y_bg == old(y_bg)
      ensures moved ==> (x_bg, y_bg) == (old(x_bg) + Step(previous.value, speed).0, old(y_bg) + Step(previous.value, speed).1)
      ensures moved ==> !bg.MonsterHitsWallAt(x_bg, y_bg, width, height)
      ensures !bg.MonsterHitsWallAt(old(x_bg) + Step(d, speed).0, old(y_bg) + Step(d, speed).1, width, height) ==>
        moved && previous == Some(d)
    {
      var hit := TryStep(bg, d);
      if !hit {
        moved := true;
      } else if recovery == [] {
        moved := false;
      } else {
        var next := if d == Left || d == Right then (if recovery[0] then Up else Down)
                    else (if recovery[0] then Left else Right);
        moved := Move(bg, next, recovery[1..]);
      }
    }

    /** The start each of the four moves shares: step towards `d`, face it, and undo the step on a wall hit. */
    method TryStep(bg: Background, d: Dir) returns (hit: bool)
      modifies this`x_bg, this`y_bg, this`frame, this`previous
      ensures previous == Some(d) && frame == DirFrame(d)
      ensures hit == bg.MonsterHitsWallAt(old(x_bg) + Step(d, speed).0, old(y_bg) + Step(d, speed).1, width, height)
      ensures hit ==> x_bg == old(x_bg) && y_bg == old(y_bg)
      ensures !hit ==> x_bg == old(x_bg) + Step(d, speed).0 && y_bg == old(y_bg) + Step(d, speed).1
    {
      var step := Step(d, speed);
      x_bg := x_bg + step.0;
      y_bg := y_bg + step.1;
      frame := DirFrame(d);
      previous := Some(d);
      hit := bg.MonsterHitsWallAt(x_bg, y_bg, width, height);
      if hit {
        x_bg := x_bg - step.0;
        y_bg := y_bg - step.1;
      }
    }

    /** Monster.place (position arithmetic and the hit counter): window position from the background one. */
    method Place(bg: Background, extend: bool)
      modifies this`x, this`y, this`hit, this`hit_count
      ensures PlacedAt(bg, extend)
      ensures (hit, hit_count) == HitTick(old(hit), old(hit_count))
    {
      x := x_bg - (bg.stagePosX - 500);
      y := y_bg - (bg.stagePosY - 400);
      if extend {
        Extend();
      }
      if hit {
        if hit_count <= 20 {
          hit_count := hit_count + 1;
        } else {
          hit_count := 0;
          hit := false;
        }
      }
    }

    /** Where Monster.place leaves the window position. */
    predicate PlacedAt(bg: Background, extend: bool)
      reads this, bg
    {
      x == x_bg - (bg.stagePosX - 500) + (if extend then ExtendShift(frame).0 else 0) &&
      y == y_bg - (bg.stagePosY - 400) + (if extend then ExtendShift(frame).1 else 0)
    }

    /** Monster.extend: the window position pushed 10 pixels along the facing side. */
    method Extend()
      modifies this`x, this`y
      ensures x == old(x) + ExtendShift(frame).0 && y == old(y) + ExtendShift(frame).1
    {
      if frame == 0 {
        y := y + 10;
      } else if frame == 1 {
        x := x + 10;
      } else if frame == 2 {
        x := x - 10;
      } else if frame == 3 {
        y := y - 10;
      }
    }

    /** The first half of attack's guard: the player is not striking this monster with a non-key item. */
    predicate Spared(player: Player, bg: Background, extend: bool)
      reads this, player, player.held_item, bg
    {
      player.held_item == null || !extend || player.held_item.kind.Key? ||
      !player.held_item.Touching(MonsterS(this), bg)
    }

    /**
     * Monster.attack: when the player is not striking it, the monster touches
     * the player at tolerance -15 on the side it is heading for, and no item
     * is extended, the cooldown advances; the 50th such tick costs the player
     * the monster's attack points once and restarts the cooldown. Every call
     * redraws the monster, extended on the tick that strikes.
     */
    method Attack(bg: Background, player: Player, extend: bool)
      requires 0 <= n < 50
      modifies this`n, this`x, this`y, this`hit, this`hit_count, this`collide, player`health, player`hit
      ensures 0 <= n < 50
      ensures var spared := old(Spared(player, bg, extend));
              var c := old(WindowContact(player.WinBox(), -15));
              var fires := spared && c.0 && previous == c.1 && previous.Some? && !extend;
              var strikes := fires && old(n) == 49;
              collide == (if spared then c.1 else old(collide)) &&
              n == (if !fires then old(n) else if strikes then 0 else old(n) + 1) &&
              (strikes ==> player.health == old(player.health) - attack_pts && player.hit) &&
              (!strikes ==> player.health == old(player.health) && player.hit == old(player.hit)) &&
              PlacedAt(bg, strikes)
      ensures (hit, hit_count) == HitTick(old(hit), old(hit_count))
    {
      var spared := player.held_item == null || !extend || player.held_item.kind.Key? ||
                    !player.held_item.Touching(MonsterS(this), bg);
      var fires := false;
      if spared {
        var touching := TouchingPlayer(player, -15);
        fires := touching && previous == collide && previous != None && !extend;
      }
      if fires {
        n := n + 1;
        if n == 50 {
          Place(bg, true);
          player.DecreaseHealth(attack_pts);
          n := 0;
        } else {
          Place(bg, false);
        }
      } else {
        Place(bg, false);
      }
    }

    /** No background object is this monster or a door of the background (so none can block it). */
    predicate Unobstructed(bg: Background)
      reads bg
    {
      forall i :: 0 <= i < |bg.background_obj| ==>
        bg.background_obj[i] != MonsterS(this) && !(bg.background_obj[i].DoorS? && bg.background_obj[i].door in bg.door_list)
    }

    /**
     * The wall branch of Monster.track_player: one step along the recorded
     * contact side, or none when no side is recorded. (The source also
     * compares the heading with that side first, which changes nothing.)
     */
    method StepAway()
      modifies this`x_bg, this`y_bg
      ensures collide.Some? ==> (x_bg, y_bg) == (old(x_bg) + Step(collide.value, speed).0, old(y_bg) + Step(collide.value, speed).1)
      ensures collide.None? ==> x_bg == old(x_bg) && y_bg == old(y_bg)
    {
      match collide {
        case None =>
        case Some(Left) => x_bg := x_bg - speed;
        case Some(Right) => x_bg := x_bg + speed;
        case Some(Up) => y_bg := y_bg - speed;
        case Some(Down) => y_bg := y_bg + speed;
      }
    }

    /**
     * The free branch of Monster.track_player: hold still, move toward the
     * chosen direction, or keep the current heading (when there is one).
     */
    method Follow(bg: Background, steer: Steer, recovery: seq<bool>)
      modifies this`x_bg, this`y_bg, this`frame, this`previous
      ensures OneStepOrStill(old(x_bg), old(y_bg), x_bg, y_bg, speed)
      ensures steer == Hold ==> x_bg == old(x_bg) && y_bg == old(y_bg) && previous == old(previous)
      ensures steer.Toward? && !bg.MonsterHitsWallAt(old(x_bg) + Step(steer.d, speed).0, old(y_bg) + Step(steer.d, speed).1, width, height) ==>
        (x_bg, y_bg) == (old(x_bg) + Step(steer.d, speed).0, old(y_bg) + Step(steer.d, speed).1) && previous == Some(steer.d)
    {
      match steer {
        case Hold =>
        case Toward(d) =>
          var moved := Move(bg, d, recovery);
        case KeepHeading =>
          if previous.Some? {
            var moved := Move(bg, previous.value, recovery);
          }
      }
    }

    /**
     * The loop of Monster.track_player over the background objects: each one
     * is touched (recording contact sides) and the result says whether any
     * touched. Only the monster itself or a door can touch it.
     */
    method TouchesAnyObject(bg: Background) returns (any: bool)
      modifies this`collide
      ensures any ==> !Unobstructed(bg)
      ensures !any ==> collide == old(collide)
    {
      any := false;
      var i := 0;
      while i < |bg.background_obj|
        invariant 0 <= i <= |bg.background_obj|
        invariant any ==>
          exists j :: 0 <= j < i && (bg.background_obj[j] == MonsterS(this) || (bg.background_obj[j].DoorS? && bg.background_obj[j].door in bg.door_list))
        invariant !any ==> collide == old(collide)
      {
        ContactRecordsOnlyOnTouch(bg.background_obj[i], bg, 0);
        var touching := Touching(bg.background_obj[i], bg, 0);
        if touching {
          any := true;
        }
        i := i + 1;
      }
    }

    /**
     * Monster.track_player with its random choices as inputs. The monster
     * checks the player, then every background object; when it stands in a
     * wall or against an object it stays put if it touches the player and
     * otherwise steps away along the recorded contact side, leaving its
     * heading as it was. Else it follows `steer`. It then attacks.
     */
    method TrackPlayer(bg: Background, player: Player, extend: bool, steer: Steer, recovery: seq<bool>)
      requires 0 <= n < 50
      modifies this`x_bg, this`y_bg, this`frame, this`previous, this`collide, this`n, this`x, this`y, this`hit, this`hit_count
      modifies player`health, player`hit
      ensures 0 <= n < 50
      ensures OneStepOrStill(old(x_bg), old(y_bg), x_bg, y_bg, speed)
      ensures old(bg.MonsterHitsWallAt(x_bg, y_bg, width, height)) ==> previous == old(previous) && frame == old(frame)
      ensures old(bg.MonsterHitsWallAt(x_bg, y_bg, width, height)) && old(WindowContact(player.WinBox(), 0)).0 ==>
        x_bg == old(x_bg) && y_bg == old(y_bg)
      ensures old(bg.MonsterHitsWallAt(x_bg, y_bg, width, height)) && old(Unobstructed(bg)) && !old(WindowContact(player.WinBox(), 0)).0 ==>
        (x_bg, y_bg) == (if old(collide).None? then (old(x_bg), old(y_bg))
                         else (old(x_bg) + Step(old(collide).value, speed).0, old(y_bg) + Step(old(collide).value, speed).1))
      ensures !old(bg.MonsterHitsWallAt(x_bg, y_bg, width, height)) && old(Unobstructed(bg)) && steer == Hold ==>
        x_bg == old(x_bg) && y_bg == old(y_bg) && previous == old(previous)
      ensures (!old(bg.MonsterHitsWallAt(x_bg, y_bg, width, height)) && old(Unobstructed(bg)) && steer.Toward? &&
               !bg.MonsterHitsWallAt(old(x_bg) + Step(steer.d, speed).0, old(y_bg) + Step(steer.d, speed).1, width, height)) ==>
        (x_bg, y_bg) == (old(x_bg) + Step(steer.d, speed).0, old(y_bg) + Step(steer.d, speed).1) && previous == Some(steer.d)
    {
      Chase(bg, player, steer, recovery);
      Attack(bg, player, extend);
    }

    /** The movement part of Monster.track_player, before the attack; see TrackPlayer. */
    method Chase(bg: Background, player: Player, steer: Steer, recovery: seq<bool>)
      modifies this`x_bg, this`y_bg, this`frame, this`previous, this`collide
      ensures OneStepOrStill(old(x_bg), old(y_bg), x_bg, y_bg, speed)
      ensures old(bg.MonsterHitsWallAt(x_bg, y_bg, width, height)) ==> previous == old(previous) && frame == old(frame)
      ensures old(bg.MonsterHitsWallAt(x_bg, y_bg, width, height)) && old(WindowContact(player.WinBox(), 0)).0 ==>
        x_bg == old(x_bg) && y_bg == old(y_bg)
      ensures old(bg.MonsterHitsWallAt(x_bg, y_bg, width, height)) && old(Unobstructed(bg)) && !old(WindowContact(player.WinBox(), 0)).0 ==>
        (x_bg, y_bg) == (if old(collide).None? then (old(x_bg), old(y_bg))
                         else (old(x_bg) + Step(old(collide).value, speed).0, old(y_bg) + Step(old(collide).value, speed).1))
      ensures !old(bg.MonsterHitsWallAt(x_bg, y_bg, width, height)) && old(Unobstructed(bg)) && steer == Hold ==>
        x_bg == old(x_bg) && y_bg == old(y_bg) && previous == old(previous)
      ensures (!old(bg.MonsterHitsWallAt(x_bg, y_bg, width, height)) && old(Unobstructed(bg)) && steer.Toward? &&
               !bg.MonsterHitsWallAt(old(x_bg) + Step(steer.d, speed).0, old(y_bg) + Step(steer.d, speed).1, width, height)) ==>
        (x_bg, y_bg) == (old(x_bg) + Step(steer.d, speed).0, old(y_bg) + Step(steer.d, speed).1) && previous == Some(steer.d)
    {
      var _ := TouchingPlayer(player, 0);
      var bgCollision := TouchesAnyObject(bg);
      if bg.MonsterHitsWallAt(x_bg, y_bg, width, height) || bgCollision {
        var touching := TouchingPlayer(player, 0);
        if !touching {
          StepAway();
        }
      } else {
        Follow(bg, steer, recovery);
      }
    }

    /** Monster.decrease_health (inherited from Player). */
    method DecreaseHealth(pts: int)
      modifies this`health, this`hit
      ensures health == old(health) - pts && hit
    {
      health := health - pts;
      hit := true;
    }

    /** Player.get_new_loc for a monster: its background position gives the cell. */
    method GetNewLoc()
      modifies this`pos_row, this`pos_col
      ensures Cell(pos_row, pos_col) == CharacterCell(x_bg, y_bg)
    {
      pos_col := (x_bg - 1050 + 430) / 620 + 1;
      pos_row := (y_bg - 900 + 365) / 620 + 1;
    }
  }

  // ------------------------------------------------------------- door

  /** The outcome of Door.open_with_items: opened, short of gems (reported to the player), or nothing. */
  datatype GateOutcome = Opened | MissingGems(count: int) | Unchanged

  /** A door of the labyrinth; opening it clears its wall points and closing it puts a panel back. */
  class Door {
    const screen: Background
    const id: int
    const width: nat
    const height: nat
    var frame: int
    const x_bg: int
    const y_bg: int
    const x: int
    const y: int

    /**
     * Door.__init__: the box is the image grown by 20 pixels; the window
     * position uses the x coordinate's remainder mod 5 for both axes, as the
     * source does.
     */
    constructor (bg: Background, xb: int, yb: int, ident: int, imageW: nat, imageH: nat)
      ensures screen == bg && id == ident && width == imageW + 20 && height == imageH + 20 && frame == 0
      ensures x_bg == xb && y_bg == yb
      ensures x == xb - xb % 5 - bg.stagePosX - bg.sizex / 2
      ensures y == yb - xb % 5 - bg.stagePosY - bg.sizey / 2
    {
      screen := bg;
      id := ident;
      width, height := imageW + 20, imageH + 20;
      frame := 0;
      x_bg, y_bg := xb, yb;
      x := xb - xb % 5 - bg.stagePosX - bg.sizex / 2;
      y := yb - xb % 5 - bg.stagePosY - bg.sizey / 2;
    }

    /** The wall points opening this door removes. */
    function Opening(): set<Point>
    {
      DoorOpening(x_bg, y_bg, width, height, screen.offset_x, screen.offset_y)
    }

    /** The wall points closing this door adds. */
    function Panel(): set<Point>
    {
      DoorPanel(x_bg, y_bg, width, height, screen.offset_x, screen.offset_y)
    }

    /**
     * Door.get_passable: opening removes every lattice point of the padded
     * door box from the walls; closing adds every point of the inset box.
     * No other wall point changes.
     */
    method GetPassable(open: bool)
      modifies screen`wall_list
      ensures open ==> screen.wall_list == old(screen.wall_list) - Opening()
      ensures !open ==> screen.wall_list == old(screen.wall_list) + Panel()
    {
      var startX := x_bg - x_bg % 5;
      var startY := y_bg - y_bg % 5;
      if open {
        screen.RemoveLattice(startX - screen.offset_x - 15, startY - screen.offset_y - 15,
                             startX - screen.offset_x + width + 15, startY - screen.offset_y + height + 15);
      }
      if !open {
        screen.AddLattice(startX - screen.offset_x + 15, startY - screen.offset_y + 15,
                          startX - screen.offset_x + width - 15, startY - screen.offset_y + height - 15);
      }
    }

    /** Door.open_door. */
    method OpenDoor()
      modifies this`frame, screen`wall_list
      ensures frame == 1 && screen.wall_list == old(screen.wall_list) - Opening()
    {
      frame := 1;
      GetPassable(true);
    }

    /** Door.close_door. */
    method CloseDoor()
      modifies this`frame, screen`wall_list
      ensures frame == 0 && screen.wall_list == old(screen.wall_list) + Panel()
    {
      frame := 0;
      GetPassable(false);
    }

    /** Whether `g` counts for open_with_items: a gem on the ground strictly inside the area before the door. */
    predicate GemAtDoor(g: Holdable, corridorLength: int)
      reads g
    {
      g.kind == Gem &&
      g.InSpace(x_bg - g.width, x_bg + width + g.width, y_bg - corridorLength, y_bg + g.height) &&
      g.loc == Ground
    }

    /** How many of `items` count for open_with_items. */
    function GemsAtDoor(items: seq<Holdable>, corridorLength: int): (count: nat)
      reads set i | 0 <= i < |items| :: items[i]
      ensures count <= |items|
      ensures count == 0 <== forall i :: 0 <= i < |items| ==> !GemAtDoor(items[i], corridorLength)
    {
      if items == [] then 0
      else GemsAtDoor(items[..|items| - 1], corridorLength) + (if GemAtDoor(items[|items| - 1], corridorLength) then 1 else 0)
    }

    /**
     * Door.open_with_items: with a list, the door opens exactly when at least
     * `minNum` of its items are gems on the ground in front of it; otherwise
     * the shortfall is reported when the player stands in the corridor below
     * the labyrinth (columns 1 to 8, row above 9). Without a list nothing
     * happens.
     */
    method OpenWithItems(items: Option<seq<Holdable>>, minNum: int, player: Player, corridorLength: int)
      returns (outcome: GateOutcome)
      modifies this`frame, screen`wall_list
      ensures items.None? ==> outcome == Unchanged
      ensures outcome == Opened <==> items.Some? && old(GemsAtDoor(items.value, corridorLength)) >= minNum
      ensures outcome == Opened ==> frame == 1 && screen.wall_list == old(screen.wall_list) - Opening()
      ensures outcome != Opened ==> frame == old(frame) && screen.wall_list == old(screen.wall_list)
      ensures outcome.MissingGems? <==>
        items.Some? && old(GemsAtDoor(items.value, corridorLength)) < minNum &&
        0 < player.pos_col < 9 && player.pos_row > 9
      ensures outcome.MissingGems? ==> outcome.count == minNum - old(GemsAtDoor(items.value, corridorLength))
    {
      outcome := Unchanged;
      if items.Some? {
        var list := items.value;
        var counter := 0;
        var i := 0;
        while i < |list|
          invariant 0 <= i <= |list|
          invariant counter == GemsAtDoor(list[..i], corridorLength)
        {
          assert list[..i + 1][..i] == list[..i];
          if list[i].kind == Gem &&
             list[i].InSpace(x_bg - list[i].width, x_bg + width + list[i].width, y_bg - corridorLength, y_bg + list[i].height) &&
             list[i].loc == Ground {
            counter := counter + 1;
          }
          i := i + 1;
        }
        assert list[..i] == list;
        if counter >= minNum {
          OpenDoor();
          outcome := Opened;
        } else if 0 < player.pos_col < 9 && player.pos_row > 9 {
          outcome := MissingGems(minNum - counter);
        }
      }
    }
  }

  // ------------------------------------------------------- background

  /** The labyrinth: stage position, wall points, doors and the objects lying on it. */
  class Background {
    const sizex: nat
    const sizey: nat
    const width: nat
    const height: nat
    const offset_x: int
    const offset_y: int
    var stagePosX: int
    var stagePosY: int
    var wall_list: set<Point>
    var wall_cells: seq<seq<set<Side>>>
    var door_list: seq<Door>
    var background_obj: seq<Sprite>
    const light_switch: Switch

    /** Background.__init__ with the image sizes given; the light switch starts as the only object. */
    constructor (sx: nat, sy: nat, imageW: nat, imageH: nat, stagePos: Point, offset: Point,
                 switchPos: Point, switchW: nat, switchH: nat)
      ensures sizex == sx && sizey == sy && width == imageW && height == imageH
      ensures stagePosX == stagePos.0 && stagePosY == stagePos.1 && offset_x == offset.0 && offset_y == offset.1
      ensures wall_list == {} && wall_cells == [] && door_list == []
      ensures fresh(light_switch) && light_switch.x_bg == switchPos.0 && light_switch.y_bg == switchPos.1
      ensures light_switch.width == switchW && light_switch.height == switchH
      ensures background_obj == [SwitchS(light_switch)]
    {
      sizex, sizey := sx, sy;
      width, height := imageW, imageH;
      stagePosX, stagePosY := stagePos.0, stagePos.1;
      offset_x, offset_y := offset.0, offset.1;
      wall_list := {};
      wall_cells := [];
      door_list := [];
      var s := new Switch(switchPos.0, switchPos.1, switchW, switchH);
      light_switch := s;
      background_obj := [SwitchS(s)];
    }

    /** Whether `t` is a background object or one of the doors. */
    predicate OnMap(t: Sprite)
      reads this`background_obj, this`door_list
    {
      t in background_obj || (t.DoorS? && t.door in door_list)
    }

    /** Doors are kept in door_list and never among the background objects. */
    predicate NoDoorObjects()
      reads this`background_obj
    {
      forall i :: 0 <= i < |background_obj| ==> !background_obj[i].DoorS?
    }

    /** The objects behind the background objects. */
    function Objs(): set<object>
      reads this`background_obj
    {
      set i | 0 <= i < |background_obj| :: background_obj[i].Obj()
    }

    /** The background is none of its own objects. */
    lemma SelfNotAnObject()
      ensures this !in Objs()
    {
    }

    /** Add every lattice point of a rectangle to the walls. */
    method AddLattice(x0: int, y0: int, x1: int, y1: int)
      modifies this`wall_list
      ensures wall_list == old(wall_list) + Lattice(x0, y0, x1, y1)
    {
      ghost var w0 := wall_list;
      var x := x0;
      while x <= x1
        invariant x0 <= x && (x - x0) % 5 == 0
        invariant forall p :: p in wall_list <==> p in w0 || (OnLattice(p, x0, y0, x1, y1) && p.0 < x)
      {
        var y := y0;
        while y <= y1
          invariant y0 <= y && (y - y0) % 5 == 0
          invariant forall p :: p in wall_list <==>
            p in w0 || (OnLattice(p, x0, y0, x1, y1) && (p.0 < x || (p.0 == x && p.1 < y)))
        {
          wall_list := wall_list + {(x, y)};
          y := y + 5;
        }
        x := x + 5;
      }
      forall p ensures p in Lattice(x0, y0, x1, y1) <==> OnLattice(p, x0, y0, x1, y1) {
        LatticeMember(p, x0, y0, x1, y1);
      }
    }

    /** Remove every lattice point of a rectangle from the walls. */
    method RemoveLattice(x0: int, y0: int, x1: int, y1: int)
      modifies this`wall_list
      ensures wall_list == old(wall_list) - Lattice(x0, y0, x1, y1)
    {
      ghost var w0 := wall_list;
      var x := x0;
      while x <= x1
        invariant x0 <= x && (x - x0) % 5 == 0
        invariant forall p :: p in wall_list <==> p in w0 && !(OnLattice(p, x0, y0, x1, y1) && p.0 < x)
      {
        var y := y0;
        while y <= y1
          invariant y0 <= y && (y - y0) % 5 == 0
          invariant forall p :: p in wall_list <==>
            p in w0 && !(OnLattice(p, x0, y0, x1, y1) && (p.0 < x || (p.0 == x && p.1 < y)))
        {
          if (x, y) in wall_list {
            wall_list := wall_list - {(x, y)};
          }
          y := y + 5;
        }
        x := x + 5;
      }
      forall p ensures p in Lattice(x0, y0, x1, y1) <==> OnLattice(p, x0, y0, x1, y1) {
        LatticeMember(p, x0, y0, x1, y1);
      }
    }

    /**
     * Background.one_wall: adds every fifth point of the rectangle, shifted by
     * the background offset, and nothing else.
     */
    method OneWall(xLeft: int, yTop: int, xRight: int, yBottom: int)
      modifies this`wall_list
      ensures wall_list == old(wall_list) + WallPoints(Wall(xLeft, yTop, xRight, yBottom), offset_x, offset_y)
    {
      AddLattice(xLeft - offset_x, yTop - offset_y, xRight - offset_x, yBottom - offset_y);
    }

    /** The four walls of one room, `across` wide and `down` tall inside: top, left, bottom, right. */
    method RoomWallsOf(sx: int, sy: int, across: int, down: int)
      modifies this`wall_list
      ensures wall_list == old(wall_list) + WallsPoints(RoomWalls(sx, sy, across, down), offset_x, offset_y)
    {
      ghost var w0 := wall_list;
      ghost var top := WallPoints(Wall(sx, sy, sx + across + 60, sy + 60), offset_x, offset_y);
      ghost var left := WallPoints(Wall(sx, sy, sx + 60, sy + down + 60), offset_x, offset_y);
      ghost var bottom := WallPoints(Wall(sx, sy + down, sx + across + 60, sy + down + 60), offset_x, offset_y);
      ghost var right := WallPoints(Wall(sx + across, sy, sx + across + 60, sy + down + 60), offset_x, offset_y);
      OneWall(sx, sy, sx + across + 60, sy + 60);
      assert wall_list == w0 + top;
      OneWall(sx, sy, sx + 60, sy + down + 60);
      assert wall_list == w0 + top + left;
      OneWall(sx, sy + down, sx + across + 60, sy + down + 60);
      assert wall_list == w0 + top + left + bottom;
      OneWall(sx + across, sy, sx + across + 60, sy + down + 60);
      assert wall_list == w0 + top + left + bottom + right;
      RoomAdded(w0, sx, sy, across, down, offset_x, offset_y);
    }

    /** The walls of every room in `rooms`, in order. */
    method RoomsWalls(rooms: seq<Point>, across: int, down: int)
      modifies this`wall_list
      ensures wall_list == old(wall_list) + RoomsPoints(rooms, across, down, offset_x, offset_y)
    {
      ghost var w0 := wall_list;
      var k := 0;
      while k < |rooms|
        invariant 0 <= k <= |rooms|
        invariant wall_list == w0 + RoomsPoints(rooms[..k], across, down, offset_x, offset_y)
      {
        RoomWallsOf(rooms[k].0, rooms[k].1, across, down);
        RoomsPointsStep(rooms, k, across, down, offset_x, offset_y);
        UnionAssoc(w0, RoomsPoints(rooms[..k], across, down, offset_x, offset_y),
          WallsPoints(RoomWalls(rooms[k].0, rooms[k].1, across, down), offset_x, offset_y));
        k := k + 1;
      }
      assert rooms[..k] == rooms;
    }

    /** The wall of side `s` of cell (row, col), when its table entry lists that side. */
    method SideWallOf(sides: set<Side>, row: int, col: int, s: Side)
      modifies this`wall_list
      ensures wall_list == old(wall_list) + SidePoints(sides, row, col, s, offset_x, offset_y)
    {
      if s in sides {
        var r := SideWall(row, col, s);
        OneWall(r.left, r.top, r.right, r.bottom);
      } else {
        UnionEmpty(wall_list);
      }
    }

    /** The walls of one grid cell, side by side as its table entry lists them. */
    method CellWallsOf(row: int, col: int)
      requires IsGridTable(wall_cells) && 0 <= row < 9 && 0 <= col < 9
      modifies this`wall_list
      ensures wall_list == old(wall_list) + CellWalls(wall_cells, row, col, offset_x, offset_y)
    {
      var sides := wall_cells[row][col];
      ghost var w0 := wall_list;
      SideWallOf(sides, row, col, N);
      SideWallOf(sides, row, col, S);
      SideWallOf(sides, row, col, W);
      SideWallOf(sides, row, col, E);
      UnionRegroup(w0, SidePoints(sides, row, col, N, offset_x, offset_y), SidePoints(sides, row, col, S, offset_x, offset_y),
        SidePoints(sides, row, col, W, offset_x, offset_y), SidePoints(sides, row, col, E, offset_x, offset_y));
    }

    /** The walls of the cells of column `col`, top to bottom, as the wall table lists them. */
    method ColumnWallsOf(col: nat)
      requires IsGridTable(wall_cells) && col < 9
      modifies this`wall_list
      ensures wall_list == old(wall_list) + ColumnWalls(wall_cells, col, 9, offset_x, offset_y)
    {
      ghost var w0 := wall_list;
      var row := 0;
      while row < 9
        invariant 0 <= row <= 9
        invariant wall_list == w0 + ColumnWalls(wall_cells, col, row, offset_x, offset_y)
      {
        CellWallsOf(row, col);
        UnionAssoc(w0, ColumnWalls(wall_cells, col, row, offset_x, offset_y), CellWalls(wall_cells, row, col, offset_x, offset_y));
        row := row + 1;
      }
    }

    /** The walls of all 81 grid cells, columns outer and rows inner. */
    method GridWallsOf()
      requires IsGridTable(wall_cells)
      modifies this`wall_list
      ensures wall_list == old(wall_list) + GridWalls(wall_cells, 9, offset_x, offset_y)
    {
      ghost var w0 := wall_list;
      var col := 0;
      while col < 9
        invariant 0 <= col <= 9
        invariant wall_list == w0 + GridWalls(wall_cells, col, offset_x, offset_y)
      {
        ColumnWallsOf(col);
        UnionAssoc(w0, GridWalls(wall_cells, col, offset_x, offset_y), ColumnWalls(wall_cells, col, 9, offset_x, offset_y));
        col := col + 1;
      }
    }

    /** The two walls of the corridor in front of the corridor room, when there is one. */
    method CorridorWallsOf(h: int, w: int, corridor: Option<Point>, corridorLength: int)
      modifies this`wall_list
      ensures wall_list == old(wall_list) +
        (if corridor.Some? then WallsPoints(CorridorWalls(corridor.value, h, w, corridorLength), offset_x, offset_y) else {})
    {
      if corridor.Some? {
        var (sx, sy) := corridor.value;
        ghost var w0 := wall_list;
        ghost var left := WallPoints(Wall(sx, sy - corridorLength, sx + 60, sy + w + 60), offset_x, offset_y);
        ghost var right := WallPoints(Wall(sx + h, sy - corridorLength, sx + h + 60, sy + w + 60), offset_x, offset_y);
        OneWall(sx, sy - corridorLength, sx + 60, sy + w + 60);
        assert wall_list == w0 + left;
        OneWall(sx + h, sy - corridorLength, sx + h + 60, sy + w + 60);
        assert wall_list == w0 + left + right;
        CorridorAdded(w0, corridor.value, h, w, corridorLength, offset_x, offset_y);
      } else {
        UnionEmpty(wall_list);
      }
    }

    /**
     * Background.place_walls: installs the wall table, then adds the walls of
     * every grid cell (columns outer, rows inner), of every horizontal and
     * vertical room and of the corridor in front of the corridor room.
     */
    method PlaceWalls(h: int, w: int, hor: seq<Point>, vert: seq<Point>, corridor: Option<Point>, corridorLength: int)
      modifies this`wall_list, this`wall_cells
      ensures wall_cells == WALL_CELLS
      ensures wall_list == old(wall_list) + LabyrinthWalls(WALL_CELLS, h, w, hor, vert, corridor, corridorLength, offset_x, offset_y)
    {
      wall_cells := WALL_CELLS;
      WallTableClosed();
      GridWallsOf();
      RoomsWalls(hor, w, h);
      RoomsWalls(vert, h, w);
      CorridorWallsOf(h, w, corridor, corridorLength);
      UnionRegroup(old(wall_list), GridWalls(WALL_CELLS, 9, offset_x, offset_y),
        RoomsPoints(hor, w, h, offset_x, offset_y), RoomsPoints(vert, h, w, offset_x, offset_y),
        if corridor.Some? then WallsPoints(CorridorWalls(corridor.value, h, w, corridorLength), offset_x, offset_y) else {});
    }

    /** detect_wall_collision at stage position (sx, sy): the player's eight points, then the held item's. */
    predicate PlayerHitsWallAt(sx: int, sy: int, player: Player)
      reads this`wall_list, player, player.held_item
    {
      AnyInWalls(PlayerProbe(sx, sy, player.width, player.height), wall_list) ||
      (player.held_item != null && ItemHitsWallAt(sx, sy, player.held_item))
    }

    /** item_detect_wall_collision at stage position (sx, sy). */
    predicate ItemHitsWallAt(sx: int, sy: int, item: Holdable)
      reads this`wall_list, item
    {
      AnyInWalls(ItemProbe(sx, sy, item.x, item.y, item.width, item.height), wall_list)
    }

    /** monster_detect_wall_collision for a monster of size (w, h) at background position (mx, my). */
    predicate MonsterHitsWallAt(mx: int, my: int, w: nat, h: nat)
      reads this`wall_list
    {
      AnyInWalls(MonsterProbe(mx, my, w, h), wall_list)
    }

    predicate DetectWallCollision(player: Player)
      reads this, player, player.held_item
    {
      PlayerHitsWallAt(stagePosX, stagePosY, player)
    }

    predicate ItemDetectWallCollision(item: Holdable)
      reads this, item
    {
      ItemHitsWallAt(stagePosX, stagePosY, item)
    }

    /**
     * Whether background object `t` stops a move to stage position (sx, sy):
     * it cannot be walked over and the held item or the player touches it.
     */
    predicate Blocks(t: Sprite, player: Player, item: Holdable?, sx: int, sy: int)
      requires t in background_obj && !t.DoorS?
      reads this`background_obj, this`door_list, player, item, t.Obj()
    {
      !t.WalkOver() &&
      ((item != null && item.TouchingAt(t, this, sx, sy)) ||
       (t.MonsterS? && player.TouchingAt(t, this, sx, sy, true)) ||
       (!t.MonsterS? && player.TouchingAt(t, this, sx, sy, false)))
    }

    /**
     * Whether scroll keeps a move to stage position (sx, sy): no wall is hit,
     * the position stays inside the open bounds of the image and no
     * background object blocks it.
     */
    predicate MoveAllowed(sx: int, sy: int, player: Player, item: Holdable?)
      requires NoDoorObjects()
      reads this`wall_list, this`background_obj, this`door_list, player, player.held_item, item, Objs()
    {
      !PlayerHitsWallAt(sx, sy, player) &&
      sx > -offset_x && sy > -offset_y && sx < width - offset_x && sy < height - offset_y &&
      forall i :: 0 <= i < |background_obj| ==> !Blocks(background_obj[i], player, item, sx, sy)
    }

    /**
     * Background.scroll: the stage position moves by (dx, dy) when the move
     * is allowed and is put back exactly where it was otherwise.
     */
    method Scroll(dx: int, dy: int, player: Player, item: Holdable?)
      requires NoDoorObjects()
      modifies this`stagePosX, this`stagePosY
      ensures MoveAllowed(old(stagePosX) + dx, old(stagePosY) + dy, player, item) ==>
        stagePosX == old(stagePosX) + dx && stagePosY == old(stagePosY) + dy
      ensures !MoveAllowed(old(stagePosX) + dx, old(stagePosY) + dy, player, item) ==>
        stagePosX == old(stagePosX) && stagePosY == old(stagePosY)
    {
      SelfNotAnObject();
      stagePosX := stagePosX + dx;
      stagePosY := stagePosY + dy;
      var redraw := Redraw(player, item);
      if !redraw {
        stagePosX := stagePosX - dx;
        stagePosY := stagePosY - dy;
      }
    }

    /**
     * The test scroll makes at the new stage position: the move is kept
     * exactly when it is allowed there.
     */
    method Redraw(player: Player, item: Holdable?) returns (redraw: bool)
      requires NoDoorObjects()
      ensures redraw == MoveAllowed(stagePosX, stagePosY, player, item)
    {
      redraw := false;
      if !DetectWallCollision(player) && stagePosX > -offset_x && stagePosY > -offset_y &&
         stagePosX < width - offset_x && stagePosY < height - offset_y {
        redraw := true;
      }
      var i := 0;
      while i < |background_obj|
        invariant 0 <= i <= |background_obj|
        invariant redraw == (!PlayerHitsWallAt(stagePosX, stagePosY, player) &&
          stagePosX > -offset_x && stagePosY > -offset_y && stagePosX < width - offset_x && stagePosY < height - offset_y &&
          forall j :: 0 <= j < i ==> !Blocks(background_obj[j], player, item, stagePosX, stagePosY))
        modifies {}
      {
        var obj := background_obj[i];
        if item != null && !obj.WalkOver() && item.Touching(obj, this) {
          redraw := false;
        } else if !obj.WalkOver() && obj.MonsterS? && player.TouchingAt(obj, this, stagePosX, stagePosY, true) {
          redraw := false;
        } else if !obj.WalkOver() && !obj.MonsterS? && player.TouchingAt(obj, this, stagePosX, stagePosY, false) {
          redraw := false;
        }
        i := i + 1;
      }
    }

    /**
     * Background.get_new_loc for an item, plant or chest: the cell of its
     * background position.
     */
    method GetNewLoc(t: Sprite)
      requires t.ItemS? || t.PlantS? || t.ChestS?
      modifies t.Obj()
      ensures t.ItemS? ==> Cell(t.item.pos_row, t.item.pos_col) == BackgroundCell(t.XBg(), t.YBg())
      ensures t.PlantS? ==> Cell(t.plant.pos_row, t.plant.pos_col) == BackgroundCell(t.XBg(), t.YBg())
      ensures t.ChestS? ==> Cell(t.chest.pos_row, t.chest.pos_col) == BackgroundCell(t.XBg(), t.YBg())
      ensures t.XBg() == old(t.XBg()) && t.YBg() == old(t.YBg())
    {
      match t {
        case ItemS(o) =>
          o.pos_col := (o.x_bg - 1050 + 450) / 620;
          o.pos_row := (o.y_bg - 900 + 395) / 620;
        case PlantS(o) =>
          o.pos_col := (o.x_bg - 1050 + 450) / 620;
          o.pos_row := (o.y_bg - 900 + 395) / 620;
        case ChestS(o) =>
          o.pos_col := (o.x_bg - 1050 + 450) / 620;
          o.pos_row := (o.y_bg - 900 + 395) / 620;
      }
    }

    /** Door `d` is the closed door make_doors builds as door k + 1 of the layout. */
    predicate MadeAs(d: Door, k: nat, mainX: (int, int), mainYTop: int, doorDist: int, corridorDoors: seq<Point>, sizes: seq<(nat, nat)>)
      requires k < 6 + |corridorDoors| == |sizes|
      reads d
    {
      d.screen == this && d.id == k + 1 && d.frame == 0 &&
      (d.x_bg, d.y_bg) == DoorOrigin(mainX, mainYTop, doorDist, corridorDoors, k) &&
      d.width == sizes[k].0 + 20 && d.height == sizes[k].1 + 20
    }

    /**
     * Background.make_doors: three doors on the left wall and three on the
     * right, `doorDist` apart from `mainYTop`, then one per corridor door,
     * numbered 1 upwards; `sizes[k]` is the image size of door k + 1.
     */
    method MakeDoors(mainX: (int, int), mainYTop: int, doorDist: int, corridorDoors: seq<Point>, sizes: seq<(nat, nat)>)
      requires |sizes| == 6 + |corridorDoors|
      modifies this`door_list
      ensures |door_list| == |old(door_list)| + 6 + |corridorDoors|
      ensures door_list[..|old(door_list)|] == old(door_list)
      ensures forall i :: |old(door_list)| <= i < |door_list| ==> fresh(door_list[i])
      ensures forall i :: |old(door_list)| <= i < |door_list| ==>
        MadeAs(door_list[i], i - |old(door_list)|, mainX, mainYTop, doorDist, corridorDoors, sizes)
      ensures forall i, j :: |old(door_list)| <= i < j < |door_list| ==> door_list[i] != door_list[j]
    {
      var n0 := |door_list|;
      var index := 1;
      while index <= 6 + |corridorDoors|
        invariant 1 <= index <= 7 + |corridorDoors|
        invariant |door_list| == n0 + index - 1
        invariant door_list[..n0] == old(door_list)
        invariant forall i :: n0 <= i < |door_list| ==> fresh(door_list[i])
        invariant forall i :: n0 <= i < |door_list| ==>
          MadeAs(door_list[i], i - n0, mainX, mainYTop, doorDist, corridorDoors, sizes)
        invariant forall i, j :: n0 <= i < j < |door_list| ==> door_list[i] != door_list[j]
      {
        var (dx, dy) := if index <= 3 then (mainX.0, mainYTop + doorDist * (index - 1))
                        else if index <= 6 then (mainX.1, mainYTop + doorDist * (index - 4))
                        else corridorDoors[index - 7];
        var d := new Door(this, dx, dy, index, sizes[index - 1].0, sizes[index - 1].1);
        assert MadeAs(d, index - 1, mainX, mainYTop, doorDist, corridorDoors, sizes);
        door_list := door_list + [d];
        assert door_list[n0 + index - 1] == d;
        index := index + 1;
      }
      assert n0 == |old(door_list)| && index - 1 == 6 + |corridorDoors|;
    }

    /**
     * Background.place_dark (which squares, not how they are drawn): every
     * inner square, or the squares around the player's cell.
     */
    function PlaceDark(player: Player, all: bool): (cells: seq<Cell>)
      reads player
      ensures all ==> cells == AllDarkCells()
      ensures !all && InnerCell(Cell(player.pos_row, player.pos_col)) ==>
        forall c :: c in cells <==> InnerCell(c) && Adjacent(c, Cell(player.pos_row, player.pos_col))
    {
      if all then AllDarkCells()
      else if InnerCell(Cell(player.pos_row, player.pos_col)) then
        DarkCellsAreInnerNeighbours(player.pos_row, player.pos_col);
        DarkCells(player.pos_row, player.pos_col)
      else DarkCells(player.pos_row, player.pos_col)
    }
  }
}
