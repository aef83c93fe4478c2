/**
 * The per-frame game logic of game.py: the backpack keys, item use
 * (flashlight, chests, shovel, keys), player movement, damage to the active
 * monster, level progression and the gem countdown. Keyboard polling
 * becomes a snapshot of the keys held during one frame; drawing is left out.
 */
module Hercules {
  import opened Common
  import opened Geometry
  import opened Walls
  import opened Entities

  /** The keys keyPressed reports as held during one frame. */
  datatype Keys = Keys(space: bool, a: bool, d: bool, e: bool, f: bool, q: bool, r: bool, w: bool,
                       up: bool, down: bool, left: bool, right: bool)

  /**
   * Game.bp_error_type: which backpack key last acted or reported an error,
   * so that holding it down does not repeat the action ('f', 'd', 'd_chest',
   * 'e', 'r').
   */
  datatype KeyLatch = Unlatched | DropKey | TakeKey | ChestTakeKey | StoreKey | CycleKey

  /** The texts the game puts in its error box. */
  datatype Message =
    | Blank
    | NothingToDrop
    | OneItemOnly
    | FiveItemsMax
    | NothingToPickUp
    | NothingForBackpack
    | BackpackEmpty
    | FlashlightOnly
    | ShovelOnly
    | WrongKey
    | KeyOnly
    | CannotKill(kind: ItemKind)
    | FindFlashlight
    | MoreGems(count: int)

  /** The player can carry at most this many items. */
  const Capacity := 5

  /** Frames of a held 'r' between two switches of the held item. */
  const CycleLag := 40

  /** Frames of a held 'q' between two flashlight switches. */
  const FlashlightLag := 80

  /** Frames of a held 'w' between two chest toggles, and of a held shovel between two digs. */
  const ChestLag := 40

  /** Frames of a held weapon between two blows. */
  const DamageLag := 100

  /** Frames per second, and the gem countdown's start: eight minutes. */
  const Fps := 120
  const GemTime := 8 * 7200

  /**
   * Why a 'd' press picks nothing up, in the order manipulate_backpack tests:
   * a held item, a full backpack, or nothing in reach.
   */
  function PickUpRefusal(holding: bool, count: int): (m: Message)
    ensures m == OneItemOnly <==> holding
    ensures m == FiveItemsMax <==> !holding && count >= Capacity
    ensures m == NothingToPickUp <==> !holding && count < Capacity
  {
    if holding then OneItemOnly
    else if count >= Capacity then FiveItemsMax
    else NothingToPickUp
  }

  /**
   * The index the 'r' key selects next: one past the held item's index,
   * wrapping to 0 after the last; with empty hands the index counts as 0.
   */
  function NextIndex(held: Option<nat>, n: nat): (i: nat)
    requires n > 0
    ensures i < n
  {
    var j := if held.Some? then held.value else 0;
    if j < n - 1 then j + 1 else 0
  }

  /** Cycling from a held item is a rotation of the item list: index i goes to (i + 1) mod n. */
  lemma CycleRotates(i: nat, n: nat)
    requires i < n
    ensures NextIndex(Some(i), n) == (i + 1) % n
  {
    if i == n - 1 {
      assert (i + 1) % n == 0;
    } else {
      assert (i + 1) % n == i + 1;
    }
  }

  /** Cycling `k` times from held item `i` reaches item (i + k) mod n: every item comes round. */
  lemma {:induction false} CycleVisitsAll(i: nat, n: nat, k: nat)
    requires i < n
    decreases k
    ensures Cycled(i, n, k) == (i + k) % n
  {
    if k > 0 {
      CycleVisitsAll(i, n, k - 1);
      var j := (i + k - 1) % n;
      CycleRotates(j, n);
      ModSucc(i + k - 1, n);
    }
  }

  /** The held index after `k` presses of 'r' starting from held index `i`. */
  function Cycled(i: nat, n: nat, k: nat): (j: nat)
    requires i < n
    decreases k
  {
    if k == 0 then i else NextIndex(Some(Cycled(i, n, k - 1)), n)
  }

  lemma ModSucc(a: nat, n: nat)
    requires n > 0
    ensures (a % n + 1) % n == (a + 1) % n
  {
    var q, r := a / n, a % n;
    assert a == q * n + r;
    if r + 1 < n {
      ModUnique(a + 1, n, q, r + 1);
      ModUnique(r + 1, n, 0, r + 1);
    } else {
      ModUnique(a + 1, n, q + 1, 0);
      ModUnique(r + 1, n, 1, 0);
    }
  }

  /** The remainder is the unique r in [0, n) with x == q * n + r. */
  lemma ModUnique(x: int, n: int, q: int, r: int)
    requires n > 0 && 0 <= r < n && x == q * n + r
    ensures x % n == r
  {
    var q', r' := x / n, x % n;
    assert x == q' * n + r';
    if q > q' {
      MulGrows(q - q', n);
    } else if q < q' {
      MulGrows(q' - q, n);
    }
  }

  lemma {:induction false} MulGrows(d: int, n: int)
    requires d >= 1 && n > 0
    decreases d
    ensures d * n >= n
  {
    if d > 1 {
      MulGrows(d - 1, n);
      assert d * n == (d - 1) * n + n;
    }
  }

  /** With empty hands and two or more items, 'r' selects the second item, not the first. */
  lemma EmptyHandsSkipFirst(n: nat)
    requires n >= 2
    ensures NextIndex(None, n) == 1
  {
  }

  /** Every background object that is not an item is still on the background: only items are taken off it. */
  predicate KeepsNonItems(before: seq<Sprite>, after: seq<Sprite>)
  {
    forall t :: t in before && !t.ItemS? ==> t in after
  }

  /** Every item on the background is still there: only other objects are taken off it. */
  predicate KeepsItems(before: seq<Sprite>, after: seq<Sprite>)
  {
    forall t :: t in before && t.ItemS? ==> t in after
  }

  // ------------------------------------------------------------- game

  /** The game: its objects, the level reached, the frame counters and the error box. */
  /** The pixels the stage scrolls per frame while an arrow key is held. */
  const Stride := 5

  /**
   * The arrow key move_player follows: down, right, left and up are tried in
   * that order, so the first one held wins.
   */
  function Arrow(input: Keys): (d: Option<Dir>)
    ensures d == Some(Down) <==> input.down
    ensures d == Some(Right) <==> !input.down && input.right
    ensures d == Some(Left) <==> !input.down && !input.right && input.left
    ensures d == Some(Up) <==> !input.down && !input.right && !input.left && input.up
  {
    if input.down then Some(Down)
    else if input.right then Some(Right)
    else if input.left then Some(Left)
    else if input.up then Some(Up)
    else None
  }

  /** The heading straight back. */
  function Opposite(d: Dir): (e: Dir)
    ensures e != d
    ensures Step(e, Stride) == (-Step(d, Stride).0, -Step(d, Stride).1)
  {
    match d
    case Left => Right
    case Right => Left
    case Up => Down
    case Down => Up
  }

  /** Items that cannot hurt a monster: keys, the flashlight and gems. */
  predicate Harmless(k: ItemKind)
  {
    k.Key? || k == Flashlight || k == Gem
  }

  /**
   * One frame of a weapon held against the monster: the next damage_lag,
   * and whether a blow lands (on the frame the lag becomes 1).
   */
  function DamageTick(lag: int): (r: (int, bool))
    ensures r.1 <==> lag == 0
    ensures 0 <= lag < DamageLag ==> r.0 == (lag + 1) % DamageLag
  {
    (if lag + 1 == DamageLag then 0 else lag + 1, lag + 1 == 1)
  }

  /** The blows that land over `k` frames of contact starting from lag `lag`. */
  function Blows(lag: int, k: nat): nat
    decreases k
  {
    if k == 0 then 0
    else (if DamageTick(lag).1 then 1 else 0) + Blows(DamageTick(lag).0, k - 1)
  }

  /**
   * Holding a weapon against the monster lands a blow on the first frame
   * and then one every DamageLag frames: from lag `lag`, `k` frames land
   * (k + (lag - 1) mod DamageLag) / DamageLag blows.
   */
  lemma {:induction false} BlowCadence(lag: int, k: nat)
    requires 0 <= lag < DamageLag
    ensures Blows(lag, k) == (k + (lag + DamageLag - 1) % DamageLag) / DamageLag
    decreases k
  {
    if k > 0 {
      var next := DamageTick(lag).0;
      BlowCadence(next, k - 1);
      assert (next + DamageLag - 1) % DamageLag == lag;
    }
  }

  /** Whatever the lag, any DamageLag consecutive frames of contact land exactly one blow. */
  lemma OneBlowPerPeriod(lag: int)
    requires 0 <= lag < DamageLag
    ensures Blows(lag, DamageLag) == 1
  {
    BlowCadence(lag, DamageLag);
  }

  /** The gems the final door wants in front of it, and how far before it they may lie. */
  const GateGems := 5
  const GateCorridor := 310

  /** A digit's character. */
  function DigitChar(d: nat): (c: char)
    requires d < 10
    ensures '0' <= c <= '9' && c as int - '0' as int == d
  {
    ('0' as int + d) as char
  }

  /** Whether a string is made of decimal digits only. */
  predicate Digits(s: string)
  {
    forall i :: 0 <= i < |s| ==> '0' <= s[i] <= '9'
  }

  /** Python's str() of a natural number: its decimal digits, most significant first. */
  function Decimal(n: nat): (s: string)
    ensures |s| >= 1 && Digits(s)
    ensures n < 10 ==> |s| == 1
    ensures 10 <= n < 100 ==> |s| == 2
    decreases n
  {
    if n < 10 then [DigitChar(n)] else Decimal(n / 10) + [DigitChar(n % 10)]
  }

  /** The number a string of digits spells. */
  function DecimalValue(s: string): nat
    requires Digits(s)
  {
    if |s| == 0 then 0 else DecimalValue(s[..|s| - 1]) * 10 + (s[|s| - 1] as int - '0' as int)
  }

  /** Reading back what str() wrote gives the number again. */
  lemma {:induction false} DecimalRoundTrip(n: nat)
    ensures DecimalValue(Decimal(n)) == n
    decreases n
  {
    if n >= 10 {
      var s := Decimal(n);
      assert s[..|s| - 1] == Decimal(n / 10);
      DecimalRoundTrip(n / 10);
    } else {
      assert Decimal(n)[..0] == [];
    }
  }

  /**
   * The minutes and seconds gem_countdown shows for `t` frames left at
   * Fps frames a second: the whole seconds left, split into minutes.
   */
  function Clock(t: nat): (c: (nat, nat))
    ensures c.1 < 60
    ensures c.0 * (60 * Fps) + c.1 * Fps <= t < c.0 * (60 * Fps) + (c.1 + 1) * Fps
  {
    var mins := t / (60 * Fps);
    var secs := (t - 60 * Fps * mins) / Fps;
    (mins, secs)
  }

  /** The countdown text: minutes, a colon, and the seconds with a leading 0 below ten. */
  function CountdownText(t: nat): string
  {
    var c := Clock(t);
    Decimal(c.0) + ":" + (if c.1 < 10 then "0" else "") + Decimal(c.1)
  }

  /**
   * The countdown text reads back as the clock: the digits before the
   * colon are the minutes, and exactly two digits after it are the seconds.
   */
  lemma CountdownReadsBack(t: nat)
    ensures var s := CountdownText(t);
      |s| >= 4 && s[|s| - 3] == ':' && Digits(s[..|s| - 3]) && Digits(s[|s| - 2..]) &&
      DecimalValue(s[..|s| - 3]) == Clock(t).0 && DecimalValue(s[|s| - 2..]) == Clock(t).1
  {
    var c := Clock(t);
    var s := CountdownText(t);
    var secs := (if c.1 < 10 then "0" else "") + Decimal(c.1);
    assert s == Decimal(c.0) + ":" + secs;
    assert |secs| == 2;
    assert s[..|s| - 3] == Decimal(c.0);
    assert s[|s| - 2..] == secs;
    DecimalRoundTrip(c.0);
    DecimalRoundTrip(c.1);
    if c.1 < 10 {
      assert secs[..1] == "0" && secs[..1][..0] == [];
    }
  }

  /** The gems never picked up, in list order: those gem_countdown removes. */
  function Unfound(gs: seq<Holdable>): (r: seq<Holdable>)
    reads (set g | g in gs)`times_picked_up
    ensures |r| <= |gs|
  {
    if gs == [] then []
    else Unfound(gs[..|gs| - 1]) + (if gs[|gs| - 1].times_picked_up == 0 then [gs[|gs| - 1]] else [])
  }

  /** Unfound(gs) holds exactly the gems of `gs` never picked up. */
  lemma {:induction false} UnfoundMeaning(gs: seq<Holdable>, g: Holdable)
    ensures g in Unfound(gs) <==> g in gs && g.times_picked_up == 0
  {
    if gs != [] {
      assert gs == gs[..|gs| - 1] + [gs[|gs| - 1]];
      UnfoundMeaning(gs[..|gs| - 1], g);
    }
  }

  /** The gems picked up at least once, in list order: those gameplay hands to the final gate. */
  function Collected(gs: seq<Holdable>): (r: seq<Holdable>)
    reads (set g | g in gs)`times_picked_up
    ensures |r| <= |gs|
  {
    if gs == [] then []
    else Collected(gs[..|gs| - 1]) + (if gs[|gs| - 1].times_picked_up > 0 then [gs[|gs| - 1]] else [])
  }

  /** Collected(gs) holds exactly the gems of `gs` picked up at least once. */
  lemma {:induction false} CollectedMeaning(gs: seq<Holdable>, g: Holdable)
    ensures g in Collected(gs) <==> g in gs && g.times_picked_up > 0
  {
    if gs != [] {
      assert gs == gs[..|gs| - 1] + [gs[|gs| - 1]];
      CollectedMeaning(gs[..|gs| - 1], g);
    }
  }

  /**
   * Every gem either counts for the final gate or vanishes with the
   * countdown, never both: the two lists split the gems between them.
   */
  lemma {:induction false} GemsSplit(gs: seq<Holdable>)
    requires forall g :: g in gs ==> g.times_picked_up >= 0
    ensures multiset(Unfound(gs)) + multiset(Collected(gs)) == multiset(gs)
  {
    if gs != [] {
      var init := gs[..|gs| - 1];
      assert gs == init + [gs[|gs| - 1]];
      GemsSplit(init);
    }
  }

  /** The unfound gems of a prefix of the list begin the unfound gems of the whole list. */
  lemma {:induction false} UnfoundPrefix(gs: seq<Holdable>, i: nat)
    requires i <= |gs|
    ensures Unfound(gs[..i]) <= Unfound(gs)
    decreases |gs|
  {
    if i < |gs| {
      var init := gs[..|gs| - 1];
      assert gs[..i] == init[..i];
      UnfoundPrefix(init, i);
    } else {
      assert gs[..i] == gs;
    }
  }

  /** A prefix holds no more of anything than the whole sequence. */
  lemma PrefixMultiset<T>(p: seq<T>, s: seq<T>)
    requires p <= s
    ensures multiset(p) <= multiset(s)
  {
    assert s == p + s[|p|..];
  }

  /** Taking away what was added gives back what there was. */
  lemma MultisetCancel<T>(a: multiset<T>, u: multiset<T>, o: multiset<T>)
    requires a + u == o
    ensures a == o - u
  {
  }

  /**
   * One removal of list.remove in a loop: when the elements removed so far
   * and the next one are among those to remove, and all those to remove
   * were present, the next one is present and the books still balance.
   */
  lemma RemoveNext<T>(cur: seq<T>, done: seq<T>, x: T, total: multiset<T>, orig: multiset<T>)
    requires multiset(cur) + multiset(done) == orig
    requires multiset(done) + multiset{x} <= total && total <= orig
    ensures x in cur
    ensures multiset(RemoveFirst(cur, x)) + multiset(done + [x]) == orig
  {
    assert (multiset(done) + multiset{x})[x] <= orig[x];
  }

  /** Extending the list by one gem extends its unfound gems by that gem when it was never picked up. */
  lemma UnfoundSnoc(gs: seq<Holdable>, i: nat)
    requires i < |gs|
    ensures Unfound(gs[..i + 1]) == Unfound(gs[..i]) + (if gs[i].times_picked_up == 0 then [gs[i]] else [])
  {
    assert gs[..i + 1][..i] == gs[..i];
  }

  /**
   * One step of gem_countdown's removal loop over gems[i]: an unfound gem is
   * still present in both lists, and removing it from both keeps the
   * removed part equal to the unfound gems of gems[..i + 1].
   */
  lemma UnfoundStep(gs: seq<Holdable>, i: nat, aw: seq<Holdable>, bg: seq<Sprite>,
                    aw0: multiset<Holdable>, bg0: multiset<Sprite>)
    requires i < |gs| && gs[i].times_picked_up == 0
    requires multiset(Unfound(gs)) <= aw0 && multiset(AsItems(Unfound(gs))) <= bg0
    requires multiset(aw) + multiset(Unfound(gs[..i])) == aw0
    requires multiset(bg) + multiset(AsItems(Unfound(gs[..i]))) == bg0
    ensures gs[i] in aw && ItemS(gs[i]) in bg
    ensures multiset(RemoveFirst(aw, gs[i])) + multiset(Unfound(gs[..i + 1])) == aw0
    ensures multiset(RemoveFirst(bg, ItemS(gs[i]))) + multiset(AsItems(Unfound(gs[..i + 1]))) == bg0
  {
    var done := Unfound(gs[..i]);
    UnfoundSnoc(gs, i);
    UnfoundPrefix(gs, i + 1);
    PrefixMultiset(done + [gs[i]], Unfound(gs));
    RemoveNext(aw, done, gs[i], multiset(Unfound(gs)), aw0);
    AsItemsSnoc(done, gs[i]);
    AsItemsPrefix(done + [gs[i]], Unfound(gs));
    PrefixMultiset(AsItems(done + [gs[i]]), AsItems(Unfound(gs)));
    RemoveNext(bg, AsItems(done), ItemS(gs[i]), multiset(AsItems(Unfound(gs))), bg0);
  }

  lemma UnfoundSkip(gs: seq<Holdable>, i: nat)
    requires i < |gs| && gs[i].times_picked_up != 0
    ensures Unfound(gs[..i + 1]) == Unfound(gs[..i])
  {
    UnfoundSnoc(gs, i);
  }

  /** Items as background objects. */
  function AsItems(ws: seq<Holdable>): (r: seq<Sprite>)
    ensures |r| == |ws| && forall i :: 0 <= i < |ws| ==> r[i] == ItemS(ws[i])
  {
    seq(|ws|, i requires 0 <= i < |ws| => ItemS(ws[i]))
  }

  lemma AsItemsSnoc(ws: seq<Holdable>, w: Holdable)
    ensures AsItems(ws + [w]) == AsItems(ws) + [ItemS(w)]
  {
  }

  lemma AsItemsPrefix(p: seq<Holdable>, ws: seq<Holdable>)
    requires p <= ws
    ensures AsItems(p) <= AsItems(ws)
  {
    assert AsItems(p) == AsItems(ws)[..|p|];
  }

  /** One turn of the removal loop: the gem at `i` goes when it was never picked up. */
  method DropGem(gs: seq<Holdable>, i: nat, items: seq<Holdable>, objects: seq<Sprite>,
                 ghost aw: multiset<Holdable>, ghost bg: multiset<Sprite>)
    returns (items': seq<Holdable>, objects': seq<Sprite>)
    requires i < |gs|
    requires multiset(Unfound(gs)) <= aw && multiset(AsItems(Unfound(gs))) <= bg
    requires multiset(items) + multiset(Unfound(gs[..i])) == aw
    requires multiset(objects) + multiset(AsItems(Unfound(gs[..i]))) == bg
    ensures multiset(items') + multiset(Unfound(gs[..i + 1])) == aw
    ensures multiset(objects') + multiset(AsItems(Unfound(gs[..i + 1]))) == bg
    ensures Subsequence(items', items) && Subsequence(objects', objects)
  {
    if gs[i].times_picked_up == 0 {
      UnfoundStep(gs, i, items, objects, aw, bg);
      RemoveFirstSubsequence(items, gs[i]);
      RemoveFirstSubsequence(objects, ItemS(gs[i]));
      items' := RemoveFirst(items, gs[i]);
      objects' := RemoveFirst(objects, ItemS(gs[i]));
    } else {
      UnfoundSkip(gs, i);
      SubsequenceRefl(items);
      SubsequenceRefl(objects);
      items', objects' := items, objects;
    }
  }

  /**
   * The loop of gem_countdown run on the two lists it edits: every gem never
   * picked up is removed (list.remove) from the available items and, as an
   * item, from the background objects; what remains keeps its order.
   */
  method DropUnfound(gs: seq<Holdable>, aw: seq<Holdable>, bg: seq<Sprite>) returns (items: seq<Holdable>, objects: seq<Sprite>)
    requires multiset(Unfound(gs)) <= multiset(aw)
    requires multiset(AsItems(Unfound(gs))) <= multiset(bg)
    ensures multiset(items) == multiset(aw) - multiset(Unfound(gs))
    ensures multiset(objects) == multiset(bg) - multiset(AsItems(Unfound(gs)))
    ensures Subsequence(items, aw) && Subsequence(objects, bg)
  {
    items, objects := aw, bg;
    SubsequenceRefl(aw);
    SubsequenceRefl(bg);
    var i := 0;
    while i < |gs|
      invariant 0 <= i <= |gs|
      invariant multiset(items) + multiset(Unfound(gs[..i])) == multiset(aw)
      invariant multiset(objects) + multiset(AsItems(Unfound(gs[..i]))) == multiset(bg)
      invariant Subsequence(items, aw) && Subsequence(objects, bg)
    {
      var items', objects' := DropGem(gs, i, items, objects, multiset(aw), multiset(bg));
      SubsequenceTrans(items', items, aw);
      SubsequenceTrans(objects', objects, bg);
      items, objects := items', objects';
      i := i + 1;
    }
    assert gs[..i] == gs;
    MultisetCancel(multiset(items), multiset(Unfound(gs)), multiset(aw));
    MultisetCancel(multiset(objects), multiset(AsItems(Unfound(gs))), multiset(bg));
  }

  class Game {
    const screen: Background
    const player: Player
    const weapons: seq<Holdable>
    const monsters: seq<Monster>
    const keys: seq<Holdable>
    const gems: seq<Holdable>
    const chests: seq<Chest>
    const potion: Holdable
    const flashlight: Holdable
    /** Weapon.damage_pts: the points an item takes off a monster of each kind (read from a table). */
    const damage: (ItemKind, MonsterKind) -> int
    const max_levels: nat
    var plants: seq<Plant>
    var available_weapons: seq<Holdable>
    var active_monster: Monster?
    var level: int
    var complete: bool
    var extend: bool
    var frame: int
    var labyrinth_lights_on: bool
    var flashlight_lag: int
    var damage_lag: int
    var items_list_lag: int
    var collected_gems: int
    var time_left: int
    var error: bool
    var message: Message
    var bp_error_type: KeyLatch
    /** The attribute item_interaction writes after a chest pick-up; nothing reads it. */
    var bg_error_type: KeyLatch
    var final_story_instructions: bool

    /**
     * Game.__init__: no monster yet, nothing available, all counters at 0,
     * eight minutes on the gem clock, and the flashlight is the last
     * flashlight among the weapons.
     */
    constructor (bg: Background, p: Player, ws: seq<Holdable>, ms: seq<Monster>, ks: seq<Holdable>,
                 gs: seq<Holdable>, ps: seq<Plant>, cs: seq<Chest>, potionItem: Holdable,
                 table: (ItemKind, MonsterKind) -> int, startLevel: int)
      requires exists i :: 0 <= i < |ws| && ws[i].kind == Flashlight
      ensures screen == bg && player == p && weapons == ws && monsters == ms && keys == ks
      ensures gems == gs && plants == ps && chests == cs && potion == potionItem && damage == table
      ensures exists k :: (0 <= k < |ws| && ws[k] == flashlight && flashlight.kind == Flashlight &&
                           forall j :: k < j < |ws| ==> ws[j].kind != Flashlight)
      ensures max_levels == |ms| && level == startLevel && active_monster == null && available_weapons == []
      ensures !complete && !extend && frame == 0 && !labyrinth_lights_on
      ensures flashlight_lag == 0 && damage_lag == 0 && items_list_lag == 0
      ensures collected_gems == 0 && time_left == GemTime
      ensures !error && message == Blank && bp_error_type == Unlatched && bg_error_type == Unlatched
      ensures !final_story_instructions
    {
      var light: Holdable? := null;
      ghost var at := -1;
      var i := 0;
      while i < |ws|
        invariant 0 <= i <= |ws| && -1 <= at < i
        invariant at == -1 <==> light == null
        invariant at == -1 ==> forall j :: 0 <= j < i ==> ws[j].kind != Flashlight
        invariant at >= 0 ==> ws[at] == light && ws[at].kind == Flashlight
        invariant forall j :: at < j < i ==> ws[j].kind != Flashlight
      {
        if ws[i].kind == Flashlight {
          light, at := ws[i], i;
        }
        i := i + 1;
      }
      screen, player, weapons, monsters, keys := bg, p, ws, ms, ks;
      gems, plants, chests, potion, damage := gs, ps, cs, potionItem, table;
      flashlight := light;
      max_levels := |ms|;
      level := startLevel;
      active_monster := null;
      available_weapons := [];
      complete, extend, frame, labyrinth_lights_on := false, false, 0, false;
      flashlight_lag, damage_lag, items_list_lag := 0, 0, 0;
      collected_gems, time_left := 0, GemTime;
      error, message := false, Blank;
      bp_error_type, bg_error_type := Unlatched, Unlatched;
      final_story_instructions := false;
    }
  
    // ------------------------------------------------------ backpack keys

    /**
     * The held item is one of the carried items (so list.index on it
     * succeeds), it is in the hands and the player wields it.
     */
    predicate Holding()
      reads player`held_item, player`items_list, player.held_item
    {
      player.held_item != null ==>
        player.held_item in player.items_list && player.held_item.wielder == player && player.held_item.loc == Hands
    }

    /**
     * Every available item that nobody wields and the player does not carry
     * lies on the background, so list.remove in pick_up finds it.
     */
    predicate Loose()
      reads this`available_weapons, player, screen`background_obj, set w | w in available_weapons
    {
      forall w :: w in available_weapons && w.wielder == null && w !in player.items_list ==>
        ItemS(w) in screen.background_obj
    }

    /**
     * Whether manipulate_backpack may pick `w` up: it touches the player, the
     * hands are empty, nobody wields it, it is not carried and there is room.
     */
    predicate Eligible(w: Holdable)
      reads w, player, screen
    {
      w.TouchingPlayer(player, screen) && player.held_item == null && w.wielder == null &&
      w !in player.items_list && |player.items_list| < Capacity
    }

    /** The item manipulate_backpack's search stops at: the first eligible one. */
    function FirstEligible(ws: seq<Holdable>): (r: Option<Holdable>)
      reads player, screen, set w | w in ws
      ensures r.Some? ==> (r.value in ws && Eligible(r.value) &&
        forall i :: 0 <= i < IndexOf(ws, r.value) ==> !Eligible(ws[i]))
      ensures r.None? ==> forall w :: w in ws ==> !Eligible(w)
    {
      if ws == [] then None
      else if Eligible(ws[0]) then Some(ws[0])
      else
        var r := FirstEligible(ws[1..]);
        assert r.Some? ==> IndexOf(ws, r.value) == 1 + IndexOf(ws[1..], r.value);
        r
    }

    /**
     * The 'f' part of manipulate_backpack: the held item is dropped onto the
     * background (and the player redrawn), or, with empty hands, "nothing to
     * drop" is reported once per press.
     */
    method DropStep(input: Keys)
      requires Holding() && Loose() && |player.items_list| <= Capacity
      modifies this`bp_error_type, this`error, this`message
      modifies player`held_item, player`items_list, player`hit, player`hit_count, screen`background_obj, player.held_item
      ensures Holding() && Loose() && |player.items_list| <= Capacity
      ensures var held := old(player.held_item);
        held != null && input.f ==>
          player.held_item == null && held.wielder == null && held.loc == Ground &&
          player.items_list == RemoveFirst(old(player.items_list), held) &&
          screen.background_obj == old(screen.background_obj) + [ItemS(held)] &&
          bp_error_type == DropKey && error == old(error) && message == old(message)
      ensures !(old(player.held_item) != null && input.f) ==>
        player.held_item == old(player.held_item) && player.items_list == old(player.items_list) &&
        screen.background_obj == old(screen.background_obj)
      ensures old(player.held_item) == null && input.f && old(bp_error_type) != DropKey ==>
        error && message == NothingToDrop && bp_error_type == DropKey
      ensures old(player.held_item) == null && input.f && old(bp_error_type) == DropKey ==>
        error == old(error) && message == old(message) && bp_error_type == DropKey
      ensures !input.f ==> error == old(error) && message == old(message)
      ensures !input.f ==> bp_error_type == (if old(bp_error_type) == DropKey then Unlatched else old(bp_error_type))
    {
      if player.held_item != null && input.f {
        bp_error_type := DropKey;
        player.held_item.Drop(screen, player);
        player.Place();
      } else if input.f && player.held_item == null && bp_error_type != DropKey {
        bp_error_type := DropKey;
        error := true;
        message := NothingToDrop;
      } else if !input.f && bp_error_type == DropKey {
        bp_error_type := Unlatched;
      }
    }

    /** The search loop of manipulate_backpack: it stops at the first available item that may be picked up. */
    method FindCandidate() returns (c: Option<Holdable>)
      ensures c == FirstEligible(available_weapons)
    {
      var i := 0;
      while i < |available_weapons|
        invariant 0 <= i <= |available_weapons|
        invariant FirstEligible(available_weapons) == FirstEligible(available_weapons[i..])
      {
        if Eligible(available_weapons[i]) {
          return Some(available_weapons[i]);
        }
        assert available_weapons[i..][1..] == available_weapons[i + 1..];
        i := i + 1;
      }
      return None;
    }

    /**
     * The 'd' part of manipulate_backpack: the first eligible item is picked
     * up (a gem's first pick-up counts towards the collected gems and the
     * potion completes the game); with nothing eligible, a 'd' press reports
     * why, once per press.
     */
    method TakeStep(input: Keys)
      requires Holding() && Loose() && |player.items_list| <= Capacity
      modifies this`bp_error_type, this`error, this`message, this`collected_gems, this`complete
      modifies player`held_item, player`items_list, player`hit, player`hit_count, screen`background_obj, available_weapons
      ensures Holding() && Loose() && |player.items_list| <= Capacity
      ensures var c := old(FirstEligible(available_weapons));
        c.Some? && old(bp_error_type) != ChestTakeKey && input.d ==>
          player.held_item == c.value && c.value.wielder == player && c.value.loc == Hands &&
          player.items_list == old(player.items_list) + [c.value] &&
          c.value.times_picked_up == old(c.value.times_picked_up) + 1 &&
          screen.background_obj == RemoveFirst(old(screen.background_obj), ItemS(c.value)) &&
          bp_error_type == TakeKey && error == old(error) && message == old(message) &&
          collected_gems == old(collected_gems) + (if c.value.kind == Gem && old(c.value.times_picked_up) == 0 then 1 else 0) &&
          complete == (old(complete) || c.value.kind == Potion)
      ensures !(old(FirstEligible(available_weapons)).Some? && old(bp_error_type) != ChestTakeKey && input.d) ==>
        player.held_item == old(player.held_item) && player.items_list == old(player.items_list) &&
        screen.background_obj == old(screen.background_obj) &&
        collected_gems == old(collected_gems) && complete == old(complete)
      ensures var refused := old(FirstEligible(available_weapons)).None? || old(bp_error_type) == ChestTakeKey;
        refused && input.d && old(bp_error_type) != TakeKey ==>
          error && message == PickUpRefusal(old(player.held_item) != null, old(|player.items_list|)) &&
          bp_error_type == TakeKey
      ensures var refused := old(FirstEligible(available_weapons)).None? || old(bp_error_type) == ChestTakeKey;
        refused && !input.d ==>
          error == old(error) && message == old(message) &&
          bp_error_type == (if old(bp_error_type) in {TakeKey, ChestTakeKey} then Unlatched else old(bp_error_type))
      ensures old(FirstEligible(available_weapons)).Some? && old(bp_error_type) != ChestTakeKey && !input.d ==>
        error == old(error) && message == old(message) && bp_error_type == old(bp_error_type)
      ensures input.d && old(bp_error_type) == TakeKey ==>
        error == old(error) && message == old(message) && bp_error_type == TakeKey
    {
      var c := FindCandidate();
      if c.Some? && bp_error_type != ChestTakeKey {
        if input.d {
          Take(c.value);
        }
      } else if input.d && bp_error_type != TakeKey {
        bp_error_type := TakeKey;
        error := true;
        message := PickUpRefusal(player.held_item != null, |player.items_list|);
      } else if !input.d && (bp_error_type == TakeKey || bp_error_type == ChestTakeKey) {
        bp_error_type := Unlatched;
      }
    }
  
    /** The pick-up itself: item `w` goes into the hands, the player is redrawn, and gems and the potion are counted. */
    method Take(w: Holdable)
      requires w in available_weapons && Eligible(w)
      requires Holding() && Loose() && |player.items_list| <= Capacity
      modifies this`bp_error_type, this`collected_gems, this`complete
      modifies player`held_item, player`items_list, player`hit, player`hit_count, screen`background_obj, w
      ensures Holding() && Loose() && |player.items_list| <= Capacity
      ensures player.held_item == w && w.wielder == player && w.loc == Hands &&
        player.items_list == old(player.items_list) + [w] && w.times_picked_up == old(w.times_picked_up) + 1 &&
        screen.background_obj == RemoveFirst(old(screen.background_obj), ItemS(w)) && bp_error_type == TakeKey
      ensures collected_gems == old(collected_gems) + (if w.kind == Gem && old(w.times_picked_up) == 0 then 1 else 0)
      ensures complete == (old(complete) || w.kind == Potion)
    {
      w.PickUp(screen, player);
      player.Place();
      bp_error_type := TakeKey;
      if w.kind == Gem && w.times_picked_up == 1 {
        collected_gems := collected_gems + 1;
      }
      if w.kind == Potion {
        complete := true;
      }
    }
  
    /**
     * The 'e' part of manipulate_backpack: the held item goes into the
     * backpack, or, with empty hands, "nothing to place" is reported; either
     * happens once per press.
     */
    method StoreStep(input: Keys)
      requires Holding() && Loose() && |player.items_list| <= Capacity
      modifies this`bp_error_type, this`error, this`message, player`held_item, player.held_item
      ensures Holding() && Loose() && |player.items_list| <= Capacity
      ensures var held := old(player.held_item);
        held != null && input.e && old(bp_error_type) != StoreKey ==>
          player.held_item == null && held.wielder == null && held.loc == Backpack &&
          bp_error_type == StoreKey && error == old(error) && message == old(message)
      ensures !(old(player.held_item) != null && input.e && old(bp_error_type) != StoreKey) ==>
        player.held_item == old(player.held_item)
      ensures old(player.held_item) == null && input.e && old(bp_error_type) != StoreKey ==>
        error && message == NothingForBackpack && bp_error_type == StoreKey
      ensures input.e && old(bp_error_type) == StoreKey ==>
        error == old(error) && message == old(message) && bp_error_type == StoreKey
      ensures !input.e ==>
        error == old(error) && message == old(message) &&
        bp_error_type == (if old(bp_error_type) == StoreKey then Unlatched else old(bp_error_type))
    {
      if player.held_item != null && input.e && bp_error_type != StoreKey {
        player.held_item.PlaceInBackpack(player);
        bp_error_type := StoreKey;
      } else if input.e && player.held_item == null && bp_error_type != StoreKey {
        error := true;
        message := NothingForBackpack;
        bp_error_type := StoreKey;
      } else if !input.e && bp_error_type == StoreKey {
        bp_error_type := Unlatched;
      }
    }

    /** The index of the held item among the carried ones, as 'r' uses it. */
    function HeldIndex(): (i: Option<nat>)
      requires Holding()
      reads player, player.held_item
      ensures i.Some? <==> player.held_item != null
      ensures i.Some? ==> i.value < |player.items_list| && player.items_list[i.value] == player.held_item
    {
      if player.held_item == null then None else Some(IndexOf(player.items_list, player.held_item))
    }

    /**
     * The 'r' part of manipulate_backpack. While 'r' is held and something is
     * carried, a counter runs from 1 to 40 and wraps to 0; on its first tick
     * the held item (if any) is put away and the next carried item is taken
     * in hand. With nothing carried, "backpack empty" is reported once per
     * press; releasing 'r' resets the counter.
     */
    method CycleStep(input: Keys)
      requires Holding() && Loose() && |player.items_list| <= Capacity && 0 <= items_list_lag < CycleLag
      modifies this`items_list_lag, this`bp_error_type, this`error, this`message
      modifies player`held_item, player`hit, player`hit_count, player.items_list
      ensures Holding() && Loose() && |player.items_list| <= Capacity && 0 <= items_list_lag < CycleLag
      ensures player.items_list == old(player.items_list)
      ensures input.r && |player.items_list| > 0 ==> items_list_lag == (old(items_list_lag) + 1) % CycleLag
      ensures var items := player.items_list;
        input.r && |items| > 0 && old(items_list_lag) == 0 ==>
          player.held_item == items[NextIndex(old(HeldIndex()), |items|)] && bp_error_type == CycleKey
      ensures var held := old(player.held_item);
        held != null && held != player.held_item ==> held.wielder == null && held.loc == Backpack
      ensures !(input.r && |player.items_list| > 0 && old(items_list_lag) == 0) ==>
        player.held_item == old(player.held_item)
      ensures input.r && |player.items_list| > 0 ==> error == old(error) && message == old(message)
      ensures input.r && |player.items_list| > 0 && old(items_list_lag) != 0 ==> bp_error_type == old(bp_error_type)
      ensures input.r && |player.items_list| == 0 ==>
        items_list_lag == old(items_list_lag) &&
        if old(bp_error_type) != CycleKey then error && message == BackpackEmpty && bp_error_type == CycleKey
        else error == old(error) && message == old(message) && bp_error_type == CycleKey
      ensures !input.r ==>
        error == old(error) && message == old(message) &&
        if old(bp_error_type) == CycleKey then items_list_lag == 0 && bp_error_type == Unlatched
        else items_list_lag == old(items_list_lag) && bp_error_type == old(bp_error_type)
    {
      if input.r && |player.items_list| > 0 {
        items_list_lag := items_list_lag + 1;
        if items_list_lag == 1 {
          Switch();
        }
        if items_list_lag == CycleLag {
          items_list_lag := 0;
        }
      } else if input.r && |player.items_list| == 0 && bp_error_type != CycleKey {
        error := true;
        message := BackpackEmpty;
        bp_error_type := CycleKey;
      } else if !input.r && bp_error_type == CycleKey {
        items_list_lag := 0;
        bp_error_type := Unlatched;
      }
    }

    /** The switch on the counter's first tick: put the held item away and take the next one in hand. */
    method Switch()
      requires Holding() && Loose() && |player.items_list| > 0
      modifies this`bp_error_type, player`held_item, player`hit, player`hit_count, player.items_list
      ensures Holding() && Loose()
      ensures player.items_list == old(player.items_list)
      ensures player.held_item == player.items_list[NextIndex(old(HeldIndex()), |player.items_list|)]
      ensures var held := old(player.held_item);
        held != null && held != player.held_item ==> held.wielder == null && held.loc == Backpack
      ensures bp_error_type == CycleKey
    {
      var i := 0;
      if player.held_item != null {
        i := IndexOf(player.items_list, player.held_item);
        player.items_list[i].PlaceInBackpack(player);
      }
      if i < |player.items_list| - 1 {
        i := i + 1;
      } else {
        i := 0;
      }
      player.items_list[i].SelectFromBackpack(player);
      player.Place();
      bp_error_type := CycleKey;
    }
  
    /** The invariants manipulate_backpack keeps; see ManipulateBackpack. */
    predicate BackpackValid()
      reads this`available_weapons, this`items_list_lag, player, player.held_item, screen`background_obj
      reads set w | w in available_weapons
    {
      Holding() && Loose() && |player.items_list| <= Capacity && 0 <= items_list_lag < CycleLag
    }

    /**
     * Game.manipulate_backpack: drop ('f'), pick up ('d'), put away ('e') and
     * cycle ('r'), in that order. The player never carries more than five
     * items, a held item is always a carried item in the player's hands, and
     * every loose available item stays on the background.
     */
    method ManipulateBackpack(input: Keys)
      requires BackpackValid()
      modifies this`bp_error_type, this`error, this`message, this`collected_gems, this`complete, this`items_list_lag
      modifies player`held_item, player`items_list, player`hit, player`hit_count, screen`background_obj
      modifies player.held_item, available_weapons, player.items_list
      ensures BackpackValid()
      ensures forall w :: w in player.items_list ==> w in old(player.items_list) || w in available_weapons
    {
      DropOrTake(input);
      assert forall i :: 0 <= i < |player.items_list| ==>
        player.items_list[i] in old(player.items_list) || player.items_list[i] in available_weapons;
      StoreOrCycle(input);
    }

    /** The first half of manipulate_backpack: the 'f' and 'd' keys. */
    method DropOrTake(input: Keys)
      requires BackpackValid()
      modifies this`bp_error_type, this`error, this`message, this`collected_gems, this`complete
      modifies player`held_item, player`items_list, player`hit, player`hit_count, screen`background_obj
      modifies player.held_item, available_weapons
      ensures BackpackValid()
      ensures forall w :: w in player.items_list ==> w in old(player.items_list) || w in available_weapons
      ensures player.held_item == null || player.held_item == old(player.held_item) || player.held_item in available_weapons
    {
      DropStep(input);
      TakeStep(input);
    }

    /** The second half of manipulate_backpack: the 'e' and 'r' keys. */
    method StoreOrCycle(input: Keys)
      requires BackpackValid()
      modifies this`bp_error_type, this`error, this`message, this`items_list_lag
      modifies player`held_item, player`hit, player`hit_count, player.held_item, player.items_list
      ensures BackpackValid()
      ensures player.items_list == old(player.items_list)
    {
      StoreStep(input);
      CycleStep(input);
    }
  
    // ---------------------------------------------------- item interaction

    /**
     * The flashlight part of item_interaction. While 'q' is held with a
     * flashlight in hand a counter runs from 1 to 80 and wraps to 0, and the
     * light switches on the counter's first tick; 'q' with another item in
     * hand reports that only a flashlight switches; releasing 'q' resets the
     * counter. Afterwards the game's flashlight is off unless it is in hand.
     */
    method FlashlightStep(input: Keys)
      requires Holding() && 0 <= flashlight_lag < FlashlightLag && flashlight.kind == Flashlight
      modifies this`flashlight_lag, this`error, this`message, player.held_item, flashlight`state
      ensures Holding() && 0 <= flashlight_lag < FlashlightLag
      ensures var held := player.held_item;
        held == old(player.held_item) &&
        (held != null ==>
          held.x == old(held.x) && held.y == old(held.y) && held.x_bg == old(held.x_bg) && held.y_bg == old(held.y_bg) &&
          held.frame == old(held.frame) && held.times_picked_up == old(held.times_picked_up))
      ensures var held := player.held_item;
        input.q && held != null && held.kind == Flashlight ==>
          flashlight_lag == (old(flashlight_lag) + 1) % FlashlightLag &&
          (held != flashlight ==> held.state == (if old(flashlight_lag) == 0 then !old(held.state) else old(held.state))) &&
          error == old(error) && message == old(message)
      ensures var held := player.held_item;
        input.q && held != null && held.kind != Flashlight ==>
          flashlight_lag == old(flashlight_lag) && error && message == FlashlightOnly &&
          (held != flashlight ==> held.state == old(held.state))
      ensures input.q && player.held_item == null ==>
        flashlight_lag == old(flashlight_lag) && error == old(error) && message == old(message)
      ensures !input.q ==>
        flashlight_lag == 0 && error == old(error) && message == old(message) &&
        (player.held_item != null && player.held_item != flashlight ==> player.held_item.state == old(player.held_item.state))
      ensures player.held_item != flashlight ==> !flashlight.state
      ensures player.held_item == flashlight ==>
        flashlight.state == (if input.q && old(flashlight_lag) == 0 then !old(flashlight.state) else old(flashlight.state))
    {
      var held := player.held_item;
      if input.q && held != null && held.kind == Flashlight {
        flashlight_lag := flashlight_lag + 1;
        if flashlight_lag == 1 {
          held.ChangeState();
        }
        if flashlight_lag == FlashlightLag {
          flashlight_lag := 0;
        }
      } else if input.q && held != null && held.kind != Flashlight {
        error := true;
        message := FlashlightOnly;
      } else if !input.q {
        flashlight_lag := 0;
      }
      if player.held_item != flashlight {
        flashlight.TurnOff();
      }
    }
  
    /** A chest's item that the player may take: nobody wields it, it is not carried and there is room. */
    predicate Takeable(chest: Chest)
      reads chest, chest.content, player`items_list
    {
      chest.content != null && chest.content.wielder == null && chest.content !in player.items_list &&
      |player.items_list| < Capacity
    }

    /**
     * Chests are closed or open consistently, their counters run below 40,
     * and a takeable item in a chest lies on the background.
     */
    predicate ChestsValid()
      reads player`items_list, screen`background_obj, set c | c in chests, set c | c in chests :: c.content
    {
      ChestsOn(screen.background_obj)
    }

    /** ChestsValid with the background objects given as `bg`. */
    predicate ChestsOn(bg: seq<Sprite>)
      reads player`items_list, set c | c in chests, set c | c in chests :: c.content
    {
      forall c :: c in chests ==>
        c.Consistent() && 0 <= c.lag < ChestLag &&
        (Takeable(c) ==> ItemS(c.content) in bg)
    }

    /** Taking only non-items off the background keeps the chests valid. */
    lemma ChestsStayOn(bg0: seq<Sprite>, bg1: seq<Sprite>)
      requires ChestsOn(bg0) && KeepsItems(bg0, bg1)
      ensures ChestsOn(bg1)
    {
    }

    /**
     * The 'w' key on one chest in item_interaction: while 'w' is held the
     * chest's counter runs from 1 to 40 and wraps to 0, and the chest
     * toggles on the first tick if the player is within reach; releasing
     * 'w' resets the counter.
     */
    method ChestLagStep(chest: Chest, input: Keys)
      requires chest.Consistent() && 0 <= chest.lag < ChestLag
      modifies chest`lag, chest`frame, chest`state
      ensures chest.Consistent() && 0 <= chest.lag < ChestLag
      ensures chest.lag == if input.w then (old(chest.lag) + 1) % ChestLag else 0
      ensures input.w && old(chest.lag) == 0 && chest.TouchingPlayer(player, screen, -20) ==>
        chest.state == !old(chest.state)
      ensures !(input.w && old(chest.lag) == 0 && chest.TouchingPlayer(player, screen, -20)) ==>
        chest.state == old(chest.state) && chest.frame == old(chest.frame)
    {
      if input.w {
        chest.lag := chest.lag + 1;
        if chest.lag == 1 {
          chest.Toggle(player, screen);
        }
        if chest.lag == ChestLag {
          chest.lag := 0;
        }
      } else {
        chest.lag := 0;
      }
    }

    /**
     * The 'd' key on one chest in item_interaction: with empty hands and a
     * takeable item, the item is taken when the chest is open and within
     * reach (tolerance -10), and the error box is blanked either way; the
     * latch written is bg_error_type, which no key handler reads.
     */
    method ChestTakeStep(chest: Chest, input: Keys)
      requires Takeable(chest) ==> ItemS(chest.content) in screen.background_obj
      requires Holding() && |player.items_list| <= Capacity
      modifies chest`content, chest.content
      modifies player`held_item, player`items_list, screen`background_obj, this`bg_error_type, this`message
      ensures Holding() && |player.items_list| <= Capacity
      ensures var item := old(chest.content);
        var tries := input.d && old(player.held_item) == null && old(Takeable(chest));
        var takes := tries && old(chest.TouchingPlayer(player, screen, -10)) && chest.state;
        (tries ==> bg_error_type == ChestTakeKey && message == Blank) &&
        (!tries ==> bg_error_type == old(bg_error_type) && message == old(message)) &&
        (takes ==>
          chest.content == null && player.held_item == item && item.wielder == player && item.loc == Hands &&
          player.items_list == old(player.items_list) + [item] &&
          item.times_picked_up == old(item.times_picked_up) + 1 &&
          screen.background_obj == RemoveFirst(old(screen.background_obj), ItemS(item))) &&
        (!takes ==>
          chest.content == item && player.held_item == old(player.held_item) &&
          player.items_list == old(player.items_list) && screen.background_obj == old(screen.background_obj) &&
          (item != null ==> item.wielder == old(item.wielder) && item.loc == old(item.loc) &&
                            item.times_picked_up == old(item.times_picked_up)))
      ensures var item := old(chest.content);
        item != null ==> item.x == old(item.x) && item.y == old(item.y) && item.x_bg == old(item.x_bg) && item.y_bg == old(item.y_bg)
    {
      if input.d && player.held_item == null && chest.content != null && chest.content.wielder == null &&
         chest.content !in player.items_list && |player.items_list| < Capacity {
        chest.PickUpObject(player, screen);
        bg_error_type := ChestTakeKey;
        message := Blank;
      }
    }
  
    /**
     * Chest `c`'s counter has advanced from `lag0` (or been reset when 'w'
     * is up), and it has changed state from `state0` only on the counter's
     * first tick.
     */
    predicate Ticked(c: Chest, lag0: int, state0: bool, w: bool)
      reads c
    {
      c.lag == (if w then (lag0 + 1) % ChestLag else 0) && (c.state != state0 ==> w && lag0 == 0)
    }

    /**
     * The chest loop of item_interaction. Every chest's counter advances
     * while 'w' is held and is reset otherwise, and a chest only changes
     * state on its counter's first tick; nothing comes out of a chest unless
     * 'd' is held with empty hands.
     */
    method ChestStep(input: Keys)
      requires Distinct(chests) && ChestsValid() && Holding() && |player.items_list| <= Capacity
      modifies chests, set c | c in chests :: c.content
      modifies player`held_item, player`items_list, screen`background_obj, this`bg_error_type, this`message
      ensures ChestsValid() && Holding() && |player.items_list| <= Capacity
      ensures forall c :: c in chests ==> Ticked(c, old(c.lag), old(c.state), input.w)
      ensures KeepsNonItems(old(screen.background_obj), screen.background_obj)
      ensures !input.d || old(player.held_item) != null ==>
        player.held_item == old(player.held_item) && player.items_list == old(player.items_list) &&
        screen.background_obj == old(screen.background_obj)
      ensures player.items_list == old(player.items_list) ||
        exists c :: c in chests && old(c.content) != null && player.held_item == old(c.content) &&
          player.items_list == old(player.items_list) + [old(c.content)]
    {
      ghost var still := !input.d || player.held_item != null;
      var i := 0;
      while i < |chests|
        invariant 0 <= i <= |chests|
        invariant ChestsValid() && Holding() && |player.items_list| <= Capacity
        invariant forall j :: 0 <= j < i ==> Ticked(chests[j], old(chests[j].lag), old(chests[j].state), input.w)
        invariant forall j :: i <= j < |chests| ==> unchanged(chests[j])
        invariant KeepsNonItems(old(screen.background_obj), screen.background_obj)
        invariant still ==>
          player.held_item == old(player.held_item) && player.items_list == old(player.items_list) &&
          screen.background_obj == old(screen.background_obj)
        invariant player.items_list == old(player.items_list) ||
          exists j :: 0 <= j < i && old(chests[j].content) != null && player.held_item == old(chests[j].content) &&
            player.items_list == old(player.items_list) + [old(chests[j].content)]
      {
        ServeChest(chests[i], input);
        i := i + 1;
      }
    }

    /** One pass of the chest loop: the 'w' counter, then the 'd' key, on one chest. */
    method ServeChest(chest: Chest, input: Keys)
      requires chest in chests && ChestsValid() && Holding() && |player.items_list| <= Capacity
      modifies chest, chest.content
      modifies player`held_item, player`items_list, screen`background_obj, this`bg_error_type, this`message
      ensures ChestsValid() && Holding() && |player.items_list| <= Capacity
      ensures Ticked(chest, old(chest.lag), old(chest.state), input.w)
      ensures KeepsNonItems(old(screen.background_obj), screen.background_obj)
      ensures !input.d || old(player.held_item) != null ==>
        player.held_item == old(player.held_item) && player.items_list == old(player.items_list) &&
        screen.background_obj == old(screen.background_obj)
      ensures player.items_list == old(player.items_list) ||
        (old(chest.content) != null && chest.content == null && player.held_item == old(chest.content) &&
         player.items_list == old(player.items_list) + [old(chest.content)])
    {
      ChestLagStep(chest, input);
      ChestTakeStep(chest, input);
    }
  
    /**
     * The plants are distinct, none is fully dug up (frame 4 plants leave
     * the list in the frame they are eaten), their dig counters run below
     * 40, and each lies on the background.
     */
    predicate PlantsValid()
      reads this`plants, screen`background_obj, set p | p in plants
    {
      Distinct(plants) &&
      forall p :: p in plants ==> 0 <= p.frame <= 3 && 0 <= p.dig_lag < ChestLag && PlantS(p) in screen.background_obj
    }

    /** Whether an extended item in hand that is not the shovel touches plant `p` on the background. */
    predicate WrongTool(p: Plant)
      reads this`extend, player`held_item, player.held_item, screen, p
    {
      extend && player.held_item != null && player.held_item.kind != Shovel &&
      PlantS(p) in screen.background_obj && player.held_item.Touching(PlantS(p), screen)
    }

    /** Whether item_interaction digs this frame: the shovel is in hand and extended. */
    predicate Digging()
      reads this`extend, player`held_item, player.held_item
    {
      player.held_item != null && player.held_item.kind == Shovel && extend
    }

    /**
     * One plant under the extended shovel: the plant's dig counter runs from
     * 1 to 40 and wraps to 0, and on tick 1 the shovel digs it if it touches
     * the plant, moving it one frame on; the fourth frame means the player
     * ate it, gaining 20 health up to 100, and it left the background.
     */
    method TendPlant(plant: Plant)
      requires Holding() && player.held_item != null && player.held_item.kind == Shovel
      requires 0 <= plant.frame <= 3 && 0 <= plant.dig_lag < ChestLag && PlantS(plant) in screen.background_obj
      modifies plant`frame, plant`dig_lag, screen`background_obj, player`health
      ensures plant.dig_lag == (old(plant.dig_lag) + 1) % ChestLag
      ensures var digs := old(plant.dig_lag) == 1 && old(player.held_item.Touching(PlantS(plant), screen));
        plant.frame == (if digs then old(plant.frame) + 1 else old(plant.frame))
      ensures plant.frame == 4 ==>
        screen.background_obj == RemoveFirst(old(screen.background_obj), PlantS(plant)) &&
        player.health == Min(old(player.health) + 20, 100)
      ensures plant.frame <= 3 ==> screen.background_obj == old(screen.background_obj) && player.health == old(player.health)
      ensures KeepsItems(old(screen.background_obj), screen.background_obj)
    {
      if plant.dig_lag == 1 {
        player.held_item.Dig(plant, screen);
      }
      plant.dig_lag := plant.dig_lag + 1;
      if plant.dig_lag == ChestLag {
        plant.dig_lag := 0;
      }
    }
  
    /**
     * The plant loop of item_interaction. Whether the shovel is in hand and
     * extended does not change inside the loop, so the model tests it once:
     * with the shovel each plant is tended (DigPlants), otherwise an extended
     * item touching a plant reports that only a shovel digs (WarnPlants).
     * Plants only leave the list when eaten, and no plant moves more than
     * one frame on.
     */
    method DigStep()
      requires Holding() && PlantsValid()
      modifies this`plants, this`error, this`message, screen`background_obj, player`health, set p | p in plants
      ensures PlantsValid()
      ensures forall p :: p in plants ==> p in old(plants)
      ensures forall p :: p in old(plants) && p !in plants ==> p.frame == 4
      ensures forall p :: p in old(plants) ==> p.frame == old(p.frame) || p.frame == old(p.frame) + 1
      ensures !old(Digging()) ==> plants == old(plants) && screen.background_obj == old(screen.background_obj)
      ensures KeepsItems(old(screen.background_obj), screen.background_obj)
      ensures (exists p :: p in plants && WrongTool(p)) ==> error && message == ShovelOnly
      ensures message == old(message) || message == ShovelOnly
    {
      if player.held_item != null && player.held_item.kind == Shovel && extend {
        DigPlants();
      } else {
        WarnPlants();
      }
    }

    /**
     * The shovel half of the plant loop. A plant that reaches frame 4 is
     * removed from the list while the loop runs, so the plant after it is
     * not visited this frame.
     */
    method DigPlants()
      requires Holding() && PlantsValid() && Digging()
      modifies this`plants, screen`background_obj, player`health, set p | p in plants
      ensures PlantsValid()
      ensures forall p :: p in plants ==> p in old(plants)
      ensures forall p :: p in old(plants) && p !in plants ==> p.frame == 4
      ensures forall p :: p in old(plants) ==> p.frame == old(p.frame) || p.frame == old(p.frame) + 1
      ensures KeepsItems(old(screen.background_obj), screen.background_obj)
    {
      var i := 0;
      while i < |plants|
        invariant 0 <= i <= |plants| + 1
        invariant PlantsValid()
        invariant forall p :: p in plants ==> p in old(plants)
        invariant forall p :: p in old(plants) && p !in plants ==> p.frame == 4
        invariant forall p :: p in old(plants) ==> p.frame == old(p.frame) || p.frame == old(p.frame) + 1
        invariant forall j :: i <= j < |plants| ==> plants[j] in old(plants) && unchanged(plants[j])
        invariant KeepsItems(old(screen.background_obj), screen.background_obj)
      {
        DigVisit(i);
        i := i + 1;
      }
    }

    /**
     * The other half of the plant loop: the error is raised exactly when an
     * extended item that is not the shovel touches some plant.
     */
    method WarnPlants()
      requires PlantsValid() && !Digging()
      modifies this`error, this`message
      ensures (exists p :: p in plants && WrongTool(p)) ==> error && message == ShovelOnly
      ensures !(exists p :: p in plants && WrongTool(p)) ==> error == old(error) && message == old(message)
    {
      ghost var found := false;
      for i := 0 to |plants|
        invariant found <==> exists j :: 0 <= j < i && WrongTool(plants[j])
        invariant found ==> error && message == ShovelOnly
        invariant !found ==> error == old(error) && message == old(message)
      {
        if extend && player.held_item != null && player.held_item.Touching(PlantS(plants[i]), screen) {
          assert WrongTool(plants[i]);
          error := true;
          message := ShovelOnly;
          found := true;
          assert 0 <= i < i + 1 && WrongTool(plants[i]);
        } else {
          assert !WrongTool(plants[i]);
          assert forall j :: 0 <= j < i + 1 && WrongTool(plants[j]) ==> j < i;
        }
      }
    }

    /** One pass of the shovel loop at index `i`: tend the plant, and remove it once eaten. */
    method DigVisit(i: nat)
      requires Holding() && PlantsValid() && i < |plants|
      requires player.held_item != null && player.held_item.kind == Shovel
      modifies this`plants, screen`background_obj, player`health, plants[i]
      ensures PlantsValid()
      ensures var plant := old(plants[i]);
        (plant.frame == old(plant.frame) || plant.frame == old(plant.frame) + 1) &&
        if plant.frame == 4 then plants == old(plants[..i] + plants[i + 1..]) else plants == old(plants)
      ensures KeepsItems(old(screen.background_obj), screen.background_obj)
    {
      var plant := plants[i];
      if plant.frame != 4 {
        TendPlant(plant);
      }
      if plant.frame == 4 {
        IndexOfDistinct(plants, i);
        RemoveFirstDistinct(plants, plant);
        plants := RemoveFirst(plants, plant);
      }
    }
    /**
     * After the plant loop: with the item drawn back, every plant's dig
     * counter returns to 0, so the next extension digs on its second frame.
     */
    method ResetDigLags()
      requires PlantsValid()
      modifies set p | p in plants
      ensures PlantsValid()
      ensures forall p :: p in plants ==> p.frame == old(p.frame)
      ensures !extend ==> forall p :: p in plants ==> p.dig_lag == 0
      ensures extend ==> forall p :: p in plants ==> p.dig_lag == old(p.dig_lag)
    {
      if !extend {
        for i := 0 to |plants|
          invariant forall p :: p in plants ==> p.frame == old(p.frame)
          invariant forall j :: 0 <= j < i ==> plants[j].dig_lag == 0
        {
          plants[i].dig_lag := 0;
        }
      }
    }

    // ------------------------------------------------------------ doors

    /** Every door belongs to the game's background, whose wall list it edits. */
    predicate DoorsOnScreen()
      reads screen`door_list, set d | d in screen.door_list
    {
      forall d :: d in screen.door_list ==> d.screen == screen
    }

    /** Whether the door loop acts on door `k`: an extended held item touches it while it is closed. */
    predicate AtDoor(k: nat)
      requires k < |screen.door_list|
      reads this`extend, player`held_item, player.held_item, screen`stagePosX, screen`stagePosY
      reads screen`background_obj, screen`door_list, screen.door_list[k]
    {
      extend && player.held_item != null && screen.door_list[k].frame == 0 &&
      player.held_item.TouchingAt(DoorS(screen.door_list[k]), screen, screen.stagePosX, screen.stagePosY)
    }

    /**
     * The index of the only door the held item can open: keys are numbered
     * from 1 in door-list order, so key n opens door n - 1; -1 when no key
     * is held.
     */
    function KeyTarget(): (t: int)
      reads player`held_item, player.held_item
      ensures t >= 0 ==> player.held_item != null && player.held_item.kind == Key(t + 1)
      ensures player.held_item != null && player.held_item.kind.Key? && player.held_item.kind.id >= 1 ==> t >= 0
    {
      if player.held_item != null && player.held_item.kind.Key? && player.held_item.kind.id >= 1
      then player.held_item.kind.id - 1 else -1
    }

    /** Whether the door loop refuses the held item at one of the first `n` doors. */
    predicate Refused(n: nat)
      requires n <= |screen.door_list|
      reads this`extend, player`held_item, player.held_item, screen`stagePosX, screen`stagePosY
      reads screen`background_obj, screen`door_list, set d | d in screen.door_list
      ensures Refused(n) <==> exists k :: 0 <= k < n && AtDoor(k) && k != KeyTarget()
    {
      n > 0 && (Refused(n - 1) || (AtDoor(n - 1) && n - 1 != KeyTarget()))
    }

    /** The text reported when a closed door is touched with the wrong item. */
    function DoorRefusal(kind: ItemKind): (m: Message)
      ensures m == WrongKey <==> kind.Key?
      ensures m == KeyOnly <==> !kind.Key?
    {
      if kind.Key? then WrongKey else KeyOnly
    }

    /**
     * One pass of the door loop at index `i`: the key whose number is the
     * door's list.index plus one opens it; another key reports the wrong
     * key, any other item that only keys open doors.
     */
    method ServeDoor(i: nat)
      requires i < |screen.door_list| && Distinct(screen.door_list) && DoorsOnScreen()
      modifies this`error, this`message, screen`wall_list, {screen.door_list[i]}`frame
      ensures var d := screen.door_list[i];
        if old(AtDoor(i)) && i == KeyTarget()
        then d.frame == 1 && screen.wall_list == old(screen.wall_list) - d.Opening()
        else d.frame == old(d.frame) && screen.wall_list == old(screen.wall_list)
      ensures old(AtDoor(i)) && i != KeyTarget() ==> error && message == DoorRefusal(player.held_item.kind)
      ensures !(old(AtDoor(i)) && i != KeyTarget()) ==> error == old(error) && message == old(message)
    {
      var door := screen.door_list[i];
      if extend && player.held_item != null && player.held_item.Touching(DoorS(door), screen) && door.frame == 0 {
        if player.held_item.kind.Key? {
          IndexOfDistinct(screen.door_list, i);
          if player.held_item.kind.id == IndexOf(screen.door_list, door) + 1 {
            door.OpenDoor();
          } else {
            error := true;
            message := WrongKey;
          }
        } else {
          error := true;
          message := KeyOnly;
        }
      }
    }

    /**
     * The door loop of item_interaction. The door the held key belongs to
     * opens exactly when it is closed and the extended key touches it, and
     * its opening leaves the walls; no other door or wall point changes. The
     * error is raised exactly when a closed door is touched by anything
     * else, naming the wrong key or the need for a key.
     */
    method DoorStep()
      requires Distinct(screen.door_list) && DoorsOnScreen()
      modifies this`error, this`message, screen`wall_list, (set d | d in screen.door_list)`frame
      ensures forall k :: 0 <= k < |screen.door_list| && k != KeyTarget() ==>
        screen.door_list[k].frame == old(screen.door_list[k].frame)
      ensures var t := KeyTarget();
        if 0 <= t < |screen.door_list| && old(AtDoor(t))
        then screen.door_list[t].frame == 1 && screen.wall_list == old(screen.wall_list) - screen.door_list[t].Opening()
        else screen.wall_list == old(screen.wall_list) &&
             (0 <= t < |screen.door_list| ==> screen.door_list[t].frame == old(screen.door_list[t].frame))
      ensures old(Refused(|screen.door_list|)) ==> error && message == DoorRefusal(player.held_item.kind)
      ensures !old(Refused(|screen.door_list|)) ==> error == old(error) && message == old(message)
    {
      ghost var t := KeyTarget();
      var i := 0;
      while i < |screen.door_list|
        invariant 0 <= i <= |screen.door_list|
        invariant forall k :: 0 <= k < |screen.door_list| && (i <= k || k != t) ==>
          screen.door_list[k].frame == old(screen.door_list[k].frame)
        invariant if 0 <= t < i && old(AtDoor(t))
          then screen.door_list[t].frame == 1 && screen.wall_list == old(screen.wall_list) - screen.door_list[t].Opening()
          else screen.wall_list == old(screen.wall_list) && (0 <= t < |screen.door_list| ==> screen.door_list[t].frame == old(screen.door_list[t].frame))
        invariant old(Refused(i)) ==> error && message == DoorRefusal(player.held_item.kind)
        invariant !old(Refused(i)) ==> error == old(error) && message == old(message)
      {
        assert AtDoor(i) == old(AtDoor(i));
        ServeDoor(i);
        i := i + 1;
      }
    }
    /**
     * Game.item_interaction: the 'q' key on the flashlight, the chest loop,
     * the plant loop and its counter reset, then the door loop. The
     * invariants each loop relies on carry over from one loop to the next.
     */
    method ItemInteraction(input: Keys)
      requires Holding() && |player.items_list| <= Capacity
      requires 0 <= flashlight_lag < FlashlightLag && flashlight.kind == Flashlight
      requires Distinct(chests) && ChestsValid() && PlantsValid()
      requires Distinct(screen.door_list) && DoorsOnScreen()
      modifies this`flashlight_lag, this`error, this`message, this`bg_error_type, this`plants
      modifies player`held_item, player`items_list, player`health, player.held_item, flashlight`state
      modifies chests, set c | c in chests :: c.content, set p | p in plants
      modifies screen`background_obj, screen`wall_list, (set d | d in screen.door_list)`frame
      ensures Holding() && |player.items_list| <= Capacity && 0 <= flashlight_lag < FlashlightLag
      ensures ChestsValid() && PlantsValid()
      ensures !extend ==> forall p :: p in plants ==> p.dig_lag == 0
    {
      FlashlightAndChests(input);
      PlantsAndDoors();
    }

    /** The first half of item_interaction: the flashlight, then the chest loop. */
    method FlashlightAndChests(input: Keys)
      requires Holding() && |player.items_list| <= Capacity
      requires 0 <= flashlight_lag < FlashlightLag && flashlight.kind == Flashlight
      requires Distinct(chests) && ChestsValid() && PlantsValid()
      modifies this`flashlight_lag, this`error, this`message, this`bg_error_type
      modifies player`held_item, player`items_list, player.held_item, flashlight`state
      modifies chests, set c | c in chests :: c.content, screen`background_obj
      ensures Holding() && |player.items_list| <= Capacity && 0 <= flashlight_lag < FlashlightLag
      ensures ChestsValid() && PlantsValid()
    {
      FlashlightStep(input);
      ChestStep(input);
    }

    /** The second half of item_interaction: the plant loop and its counter reset, then the door loop. */
    method PlantsAndDoors()
      requires Holding() && ChestsValid() && PlantsValid()
      requires Distinct(screen.door_list) && DoorsOnScreen()
      modifies this`error, this`message, this`plants, player`health, set p | p in plants
      modifies screen`background_obj, screen`wall_list, (set d | d in screen.door_list)`frame
      ensures ChestsValid() && PlantsValid()
      ensures !extend ==> forall p :: p in plants ==> p.dig_lag == 0
    {
      PlantStep();
      DoorStep();
    }

    /** The shovel part of item_interaction: the plant loop, then the counter reset. */
    method PlantStep()
      requires Holding() && ChestsValid() && PlantsValid()
      modifies this`error, this`message, this`plants, player`health, screen`background_obj, set p | p in plants
      ensures ChestsValid() && PlantsValid()
      ensures !extend ==> forall p :: p in plants ==> p.dig_lag == 0
    {
      ghost var bg0 := screen.background_obj;
      DigStep();
      ChestsStayOn(bg0, screen.background_obj);
      ResetDigLags();
    }

    // ------------------------------------------------------------ movement

    /**
     * Whether the active monster stops a step towards `d`: its last heading
     * was the opposite way and it touches the player (Monster.touching with
     * the player and no tolerance).
     */
    predicate Blocking(d: Dir)
      reads this`active_monster, active_monster, player
    {
      active_monster != null && active_monster.previous == Some(Opposite(d)) &&
      active_monster.WindowContact(player.WinBox(), 0).0
    }

    /** The stage displacement move_player asks for: five pixels towards the arrow, unless it is blocked. */
    function Request(input: Keys): (v: (int, int))
      reads this`active_monster, active_monster, player
      ensures Arrow(input).None? ==> v == (0, 0)
      ensures Arrow(input).Some? && Blocking(Arrow(input).value) ==> v == (0, 0)
      ensures Arrow(input).Some? && !Blocking(Arrow(input).value) ==> v == Step(Arrow(input).value, Stride)
    {
      match Arrow(input)
      case None => (0, 0)
      case Some(d) => if Blocking(d) then (0, 0) else Step(d, Stride)
    }

    /**
     * Game.move_player: the first arrow key held (down, right, left, up)
     * turns the player that way and scrolls the stage five pixels that way,
     * unless the active monster blocks it; a blocked or refused step, or no
     * arrow at all, leaves the stage where it was. Asking the monster
     * whether it touches the player may record the contact side.
     */
    method MovePlayer(input: Keys)
      requires screen.NoDoorObjects()
      modifies this`frame, screen`stagePosX, screen`stagePosY
      modifies (if active_monster != null then {active_monster} else {})`collide
      ensures Arrow(input).Some? ==> frame == DirFrame(Arrow(input).value)
      ensures Arrow(input).None? ==> frame == old(frame)
      ensures var v := old(Request(input));
        if screen.MoveAllowed(old(screen.stagePosX) + v.0, old(screen.stagePosY) + v.1, player, player.held_item)
        then screen.stagePosX == old(screen.stagePosX) + v.0 && screen.stagePosY == old(screen.stagePosY) + v.1
        else screen.stagePosX == old(screen.stagePosX) && screen.stagePosY == old(screen.stagePosY)
      ensures active_monster != null ==>
        if Arrow(input).Some? && active_monster.previous == Some(Opposite(Arrow(input).value))
        then active_monster.collide == old(active_monster.WindowContact(player.WinBox(), 0)).1
        else active_monster.collide == old(active_monster.collide)
    {
      var arrow := Arrow(input);
      var v := (0, 0);
      if arrow.Some? {
        var blocked := Blocked(arrow.value);
        if !blocked {
          v := Step(arrow.value, Stride);
        }
        frame := DirFrame(arrow.value);
      }
      screen.Scroll(v.0, v.1, player, player.held_item);
    }

    /**
     * The monster test of move_player for a step towards `d`: the monster is
     * asked whether it touches the player only when its last heading was the
     * opposite way, and that question may record the contact side.
     */
    method Blocked(d: Dir) returns (b: bool)
      modifies (if active_monster != null then {active_monster} else {})`collide
      ensures b == old(Blocking(d))
      ensures active_monster != null ==>
        if active_monster.previous == Some(Opposite(d))
        then active_monster.collide == old(active_monster.WindowContact(player.WinBox(), 0)).1
        else active_monster.collide == old(active_monster.collide)
    {
      b := false;
      if active_monster != null && active_monster.previous == Some(Opposite(d)) {
        b := active_monster.TouchingPlayer(player, 0);
      }
    }

    // ------------------------------------------------------ monster damage

    /** Whether the extended held item touches the active monster. */
    predicate Striking()
      requires active_monster != null
      reads this`extend, this`active_monster, player`held_item, player.held_item, screen, active_monster
    {
      player.held_item != null && extend && player.held_item.Touching(MonsterS(active_monster), screen)
    }

    /**
     * The damage part of monster_interaction. A key, the flashlight or a gem
     * against the monster only raises the error naming it. Any other item
     * advances damage_lag, and the blow lands (the item's damage points for
     * this kind of monster) on the frame the lag becomes 1. Releasing the
     * item resets the lag. The monster is killed when a strike leaves it
     * with no health.
     */
    method Strike() returns (killed: bool)
      requires active_monster != null
      modifies this`error, this`message, this`damage_lag, active_monster`health, active_monster`hit
      ensures var held := old(player.held_item);
        if old(Striking()) && Harmless(held.kind) then
          error && message == CannotKill(held.kind) && damage_lag == old(damage_lag) &&
          active_monster.health == old(active_monster.health) && active_monster.hit == old(active_monster.hit) && !killed
        else if old(Striking()) then
          var tick := DamageTick(old(damage_lag));
          error == old(error) && message == old(message) && damage_lag == tick.0 &&
          active_monster.health == old(active_monster.health) - (if tick.1 then damage(held.kind, active_monster.kind) else 0) &&
          active_monster.hit == (tick.1 || old(active_monster.hit)) &&
          killed == (active_monster.health <= 0)
        else
          error == old(error) && message == old(message) && damage_lag == (if extend then old(damage_lag) else 0) &&
          active_monster.health == old(active_monster.health) && active_monster.hit == old(active_monster.hit) && !killed
    {
      killed := false;
      var held := player.held_item;
      if held != null && extend && held.Touching(MonsterS(active_monster), screen) {
        if Harmless(held.kind) {
          error := true;
          message := CannotKill(held.kind);
        } else {
          damage_lag := damage_lag + 1;
          if damage_lag == 1 {
            active_monster.DecreaseHealth(damage(held.kind, active_monster.kind));
          }
          if damage_lag == DamageLag {
            damage_lag := 0;
          }
          killed := active_monster.health <= 0;
        }
      } else if !extend {
        damage_lag := 0;
      }
    }

    /**
     * Game.monster_interaction: strike the active monster and, when the
     * strike kills it, advance to the next level. The damage counter stays
     * below DamageLag and the level bookkeeping holds throughout.
     */
    method MonsterInteraction()
      requires Roster() && Staged() && 0 <= level < max_levels && 0 <= damage_lag < DamageLag
      requires DoorsOnScreen() && Releasable()
      modifies this`error, this`message, this`damage_lag, this`level, this`active_monster
      modifies this`available_weapons, this`final_story_instructions
      modifies monsters, (set h | h in keys + weapons)`x_bg, (set h | h in keys + weapons)`y_bg
      modifies (set h | h in keys + weapons)`loc, (set c | c in chests)`content
      modifies screen`background_obj, screen`wall_list, (set d | d in screen.door_list)`frame
      ensures Staged() && 0 <= damage_lag < DamageLag
      ensures level == old(level) || level == old(level) + 1
      ensures level == old(level) + 1 ==> old(Striking()) && !Harmless(old(player.held_item).kind)
    {
      var killed := Strike();
      if killed {
        NextLevel();
      }
    }

    // ---------------------------------------------------------------- levels

    /**
     * The cast main.py sets up: one weapon per level, a key per door, a
     * chest in each monster's room and a door for each monster's room, plus
     * the gate to the final room.
     */
    predicate Roster()
      reads screen`door_list
    {
      max_levels == |monsters| && |weapons| >= max_levels && |keys| > max_levels &&
      |chests| >= max_levels && |screen.door_list| > max_levels
    }

    /**
     * The level bookkeeping: during a level its monster is the active one,
     * and after the last level no monster is active.
     */
    predicate Staged()
      reads this`level, this`active_monster
    {
      (0 <= level < |monsters| ==> active_monster == monsters[level]) &&
      (level >= |monsters| ==> active_monster == null)
    }

    /**
     * What next_level needs to find when it releases the next monster: that
     * monster is still among the background objects (list.remove raises
     * otherwise), and the reward key is neither the next weapon nor the
     * final key.
     */
    predicate Releasable()
      requires Roster() && 0 <= level < max_levels
      reads this`level, screen`door_list, screen`background_obj
    {
      keys[level] != keys[level + 1] &&
      (level + 1 < max_levels ==>
        MonsterS(monsters[level + 1]) in screen.background_obj && keys[level] != weapons[level + 1])
    }

    /**
     * Game.next_level: after any level but the last, the beaten monster
     * leaves its key, the next monster becomes active and is let out, and
     * the next weapon goes in the beaten monster's chest; after the last
     * level the final level begins.
     */
    method NextLevel()
      requires Roster() && Staged() && 0 <= level < max_levels && DoorsOnScreen() && Releasable()
      modifies this`level, this`active_monster, this`available_weapons, this`final_story_instructions
      modifies monsters, (set h | h in keys + weapons)`x_bg, (set h | h in keys + weapons)`y_bg
      modifies (set h | h in keys + weapons)`loc, (set c | c in chests)`content
      modifies screen`background_obj, screen`wall_list, (set d | d in screen.door_list)`frame
      ensures Staged() && level == old(level) + 1
      ensures keys[old(level)].x_bg == old(active_monster.x_bg) + 575
      ensures keys[old(level)].y_bg == old(active_monster.y_bg) + 475
      ensures level < max_levels ==> chests[level - 1].content == weapons[level] && weapons[level].loc == InChest
      ensures level < max_levels ==> screen.door_list[level].frame == 1
      ensures level < max_levels ==> available_weapons == old(available_weapons) + [weapons[level], keys[level - 1]]
      ensures level == max_levels ==> chests[level - 1].content == keys[level] && keys[level].loc == InChest
      ensures level == max_levels ==> available_weapons == old(available_weapons) + [keys[level - 1], keys[level]]
      ensures level == max_levels ==> final_story_instructions
    {
      if level < max_levels - 1 && level >= 0 {
        Advance();
      } else {
        FinalLevel();
      }
    }

    /**
     * The first branch of next_level. The key lands near the beaten
     * monster's centre, the next monster leaves the background objects and
     * its room's door opens, and the monster's grid cell is brought up to
     * date.
     */
    method Advance()
      requires Roster() && Staged() && 0 <= level < max_levels - 1 && DoorsOnScreen() && Releasable()
      modifies this`level, this`active_monster, this`available_weapons
      modifies {keys[level]}`x_bg, {keys[level]}`y_bg
      modifies {weapons[level + 1]}`x_bg, {weapons[level + 1]}`y_bg, {weapons[level + 1]}`loc, {chests[level]}`content
      modifies {monsters[level + 1]}`pos_row, {monsters[level + 1]}`pos_col
      modifies screen`background_obj, screen`wall_list, {screen.door_list[level + 1]}`frame
      ensures level == old(level) + 1 && active_monster == monsters[level] && Staged()
      ensures available_weapons == old(available_weapons) + [weapons[level], keys[level - 1]]
      ensures keys[level - 1].x_bg == old(active_monster.x_bg) + 575
      ensures keys[level - 1].y_bg == old(active_monster.y_bg) + 475
      ensures chests[level - 1].content == weapons[level] && weapons[level].loc == InChest
      ensures weapons[level].x_bg == chests[level - 1].x_bg && weapons[level].y_bg == chests[level - 1].y_bg
      ensures screen.background_obj ==
        RemoveFirst(old(screen.background_obj) + [ItemS(keys[level - 1]), ItemS(weapons[level])], MonsterS(monsters[level]))
      ensures screen.door_list[level].frame == 1
      ensures screen.wall_list == old(screen.wall_list) - screen.door_list[level].Opening()
      ensures Cell(monsters[level].pos_row, monsters[level].pos_col) == CharacterCell(monsters[level].x_bg, monsters[level].y_bg)
    {
      var levelKey := keys[level];
      levelKey.x_bg := active_monster.x_bg + 575;
      levelKey.y_bg := active_monster.y_bg + 475;
      level := level + 1;
      Levels();
      Release(levelKey);
    }

    /**
     * The rest of next_level's first branch, once the level has advanced:
     * the reward key and the new weapon join the background objects, the
     * new monster leaves them, the key becomes available, the new monster's
     * door opens and its grid cell is brought up to date.
     */
    method Release(levelKey: Holdable)
      requires Roster() && 0 < level < max_levels && active_monster == monsters[level] && DoorsOnScreen()
      requires MonsterS(monsters[level]) in screen.background_obj
      modifies this`available_weapons, {monsters[level]}`pos_row, {monsters[level]}`pos_col
      modifies screen`background_obj, screen`wall_list, {screen.door_list[level]}`frame
      ensures available_weapons == old(available_weapons) + [levelKey]
      ensures screen.background_obj ==
        RemoveFirst(old(screen.background_obj) + [ItemS(levelKey), ItemS(weapons[level])], MonsterS(monsters[level]))
      ensures screen.door_list[level].frame == 1
      ensures screen.wall_list == old(screen.wall_list) - screen.door_list[level].Opening()
      ensures Cell(monsters[level].pos_row, monsters[level].pos_col) == CharacterCell(monsters[level].x_bg, monsters[level].y_bg)
    {
      screen.background_obj := screen.background_obj + [ItemS(levelKey), ItemS(weapons[level])];
      screen.background_obj := RemoveFirst(screen.background_obj, MonsterS(monsters[level]));
      available_weapons := available_weapons + [levelKey];
      screen.door_list[level].OpenDoor();
      active_monster.GetNewLoc();
    }

    /**
     * Game.levels: from level 0 on, the level's monster becomes the active
     * one and its weapon becomes available; after the first level the
     * weapon is put in the previous monster's chest.
     */
    method Levels()
      requires level >= 0 ==> level < |monsters| && level < |weapons| && level <= |chests|
      modifies this`active_monster, this`available_weapons
      modifies (if 0 < level then {weapons[level]} else {})`x_bg
      modifies (if 0 < level then {weapons[level]} else {})`y_bg
      modifies (if 0 < level then {weapons[level]} else {})`loc
      modifies (if 0 < level then {chests[level - 1]} else {})`content
      ensures level >= 0 ==> active_monster == monsters[level] && available_weapons == old(available_weapons) + [weapons[level]]
      ensures level < 0 ==> active_monster == old(active_monster) && available_weapons == old(available_weapons)
      ensures level > 0 ==> chests[level - 1].content == weapons[level] && weapons[level].loc == InChest
      ensures level > 0 ==> weapons[level].x_bg == chests[level - 1].x_bg && weapons[level].y_bg == chests[level - 1].y_bg
    {
      if level >= 0 {
        active_monster := monsters[level];
        available_weapons := available_weapons + [weapons[level]];
        if level > 0 {
          chests[level - 1].PlaceObject(weapons[level]);
        }
      }
    }

    /**
     * Game.final_level: the last monster's key lands near its centre, the
     * final room's key goes in its chest, both keys become available and no
     * monster is active any more.
     */
    method FinalLevel()
      requires Roster() && Staged() && 0 <= level < max_levels && keys[level] != keys[level + 1]
      modifies this`level, this`active_monster, this`available_weapons, this`final_story_instructions
      modifies {keys[level]}`x_bg, {keys[level]}`y_bg
      modifies {keys[level + 1]}`x_bg, {keys[level + 1]}`y_bg, {keys[level + 1]}`loc, {chests[level]}`content
      modifies screen`background_obj
      ensures level == old(level) + 1 && active_monster == null && final_story_instructions
      ensures keys[level - 1].x_bg == old(active_monster.x_bg) + 575
      ensures keys[level - 1].y_bg == old(active_monster.y_bg) + 475
      ensures chests[level - 1].content == keys[level] && keys[level].loc == InChest
      ensures keys[level].x_bg == chests[level - 1].x_bg && keys[level].y_bg == chests[level - 1].y_bg
      ensures screen.background_obj == old(screen.background_obj) + [ItemS(keys[level - 1]), ItemS(keys[level])]
      ensures available_weapons == old(available_weapons) + [keys[level - 1], keys[level]]
    {
      var levelKey := keys[level];
      levelKey.x_bg := active_monster.x_bg + 575;
      levelKey.y_bg := active_monster.y_bg + 475;
      screen.background_obj := screen.background_obj + [ItemS(levelKey)];
      level := level + 1;
      var finalKey := keys[level];
      chests[level - 1].PlaceObject(finalKey);
      screen.background_obj := screen.background_obj + [ItemS(finalKey)];
      available_weapons := available_weapons + [levelKey];
      available_weapons := available_weapons + [finalKey];
      active_monster := null;
      final_story_instructions := true;
    }

    // ------------------------------------------------------- gem countdown

    /**
     * Game.gem_countdown, which the frame loop calls while time is left:
     * one frame passes and the text shows the minutes and seconds there
     * were. On the frame the time runs out the text is blank and every gem
     * never picked up leaves the available items and the background
     * objects (list.remove on each, so each must be there).
     */
    method GemCountdown() returns (text: string)
      requires time_left > 0
      requires multiset(Unfound(gems)) <= multiset(available_weapons)
      requires multiset(AsItems(Unfound(gems))) <= multiset(screen.background_obj)
      modifies this`time_left, this`available_weapons, screen`background_obj
      ensures time_left == old(time_left) - 1 && time_left >= 0
      ensures time_left > 0 ==> (text == CountdownText(old(time_left)) &&
        available_weapons == old(available_weapons) && screen.background_obj == old(screen.background_obj))
      ensures time_left == 0 ==> (text == "" &&
        multiset(available_weapons) == multiset(old(available_weapons)) - multiset(old(Unfound(gems))) &&
        multiset(screen.background_obj) == multiset(old(screen.background_obj)) - multiset(AsItems(old(Unfound(gems)))) &&
        Subsequence(available_weapons, old(available_weapons)) && Subsequence(screen.background_obj, old(screen.background_obj)))
    {
      text := CountdownText(time_left);
      if time_left - 1 == 0 {
        text := "";
        RemoveUnfound();
      }
      time_left := time_left - 1;
    }

    /** The removal loop of gem_countdown, storing the shortened lists back. */
    method RemoveUnfound()
      requires multiset(Unfound(gems)) <= multiset(available_weapons)
      requires multiset(AsItems(Unfound(gems))) <= multiset(screen.background_obj)
      modifies this`available_weapons, screen`background_obj
      ensures multiset(available_weapons) == multiset(old(available_weapons)) - multiset(old(Unfound(gems)))
      ensures multiset(screen.background_obj) == multiset(old(screen.background_obj)) - multiset(AsItems(old(Unfound(gems))))
      ensures Subsequence(available_weapons, old(available_weapons)) && Subsequence(screen.background_obj, old(screen.background_obj))
    {
      var items, objects := DropUnfound(gems, available_weapons, screen.background_obj);
      available_weapons := items;
      screen.background_obj := objects;
    }

    // ------------------------------------------------------ final gem gate

    /**
     * The body of the final-level gate: the loop lists the gems picked up at
     * least once, then the door is tried with that list.
     */
    method OpenFinalDoor(door: Door) returns (outcome: GateOutcome)
      requires door.screen == screen
      modifies door`frame, screen`wall_list
      ensures var count := old(door.GemsAtDoor(Collected(gems), GateCorridor));
        && (outcome == Opened <==> count >= GateGems)
        && (outcome.MissingGems? <==> count < GateGems && 0 < player.pos_col < 9 && player.pos_row > 9)
        && (outcome.MissingGems? ==> outcome.count == GateGems - count)
      ensures outcome == Opened ==> door.frame == 1 && screen.wall_list == old(screen.wall_list) - door.Opening()
      ensures outcome != Opened ==> door.frame == old(door.frame) && screen.wall_list == old(screen.wall_list)
    {
      var collected := [];
      var i := 0;
      while i < |gems|
        invariant 0 <= i <= |gems|
        invariant collected == Collected(gems[..i])
        modifies {}
      {
        assert gems[..i + 1][..i] == gems[..i];
        if gems[i].times_picked_up > 0 {
          collected := collected + [gems[i]];
        }
        i := i + 1;
      }
      assert gems[..i] == gems;
      outcome := door.OpenWithItems(Some(collected), GateGems, player, GateCorridor);
    }

    /**
     * The final-level gate of gameplay: once every monster is beaten, and
     * while the final room's door (the eighth) is closed, the door opens
     * when at least five of the gems picked up lie on the ground in the
     * corridor before it; otherwise a player standing in that corridor is
     * told how many gems are missing.
     */
    method FinalGate(tutorial: bool)
      requires |screen.door_list| > 7 && screen.door_list[7].screen == screen
      modifies this`error, this`message, {screen.door_list[7]}`frame, screen`wall_list
      ensures var d := screen.door_list[7];
        var due := !tutorial && old(level) == max_levels && old(d.frame) != 1;
        var count := old(d.GemsAtDoor(Collected(gems), GateCorridor));
        && (due && count >= GateGems ==> d.frame == 1 && screen.wall_list == old(screen.wall_list) - d.Opening())
        && (!(due && count >= GateGems) ==> d.frame == old(d.frame) && screen.wall_list == old(screen.wall_list))
        && (due && count < GateGems && 0 < player.pos_col < 9 && player.pos_row > 9 ==>
              error && message == MoreGems(GateGems - count))
        && (!(due && count < GateGems && 0 < player.pos_col < 9 && player.pos_row > 9) ==>
              error == old(error) && message == old(message))
    {
      var door := screen.door_list[7];
      if !tutorial && level == max_levels && door.frame != 1 {
        var outcome := OpenFinalDoor(door);
        if outcome.MissingGems? {
          error, message := true, MoreGems(outcome.count);
        }
      }
    }
  }
}
