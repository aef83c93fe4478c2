# Labors of Hercules — a verified model of the game core

"Labors of Hercules" is a pygame maze game. The player walks through a 9×9 labyrinth, fights one monster per level with the weapon that level hands out, and collects gems before a countdown runs out. The player also opens doors with numbered keys, takes items out of chests, digs up plants with a shovel and lights dark corridors with a flashlight. Before the last room opens, five of the six gems have to be laid on the ground in front of its door.

This project models the integer geometry and the state machines underneath the drawing code:

- **Walls and doors** (`walls.dfy`, and `Background` and `Door` in `entities.dfy`).
  - The walls are a set of points on a 5-pixel lattice. `one_wall` and `place_walls` build it from the 9×9 table of cell sides, the side rooms and the corridor.
  - The collision tests sample 8 or 16 points and ask whether any of them is a wall point.
  - Opening a door removes a padded rectangle of points, and closing it adds back a smaller inset one.
  - `scroll` tries a move and puts the stage position back when the move is refused.
  - `open_with_items` counts the gems in front of the final door.
- **Items, the backpack and chests** (`Holdable`, `Chest` and `Plant` in `entities.dfy`; `Game` in `game.py`, modelled in `game.dfy`).
  - An item is on the ground, in the hands, in the backpack or in a chest.
  - Key presses are given as one snapshot per frame.
  - The model keeps the key latches, the 5-item capacity, the order of the error messages and the repeat counters.
- **Monsters** (`Monster` in `entities.dfy`).
  - `touching` does the overlap test and records the contact side.
  - Each move is a one-step move that is undone on a wall hit, after which a move at right angles is tried.
  - The wall branch of `track_player` and the 50-frame attack cooldown are modelled.
  - The monster's random choices are inputs.
- **Levels and the gem clock** (`Game` in `game.dfy`): `next_level`, `levels`, `final_level`, the damage counter, `gem_countdown` and the final-gate test in `gameplay`.

Modules:

| module | file | holds |
|---|---|---|
| `Common` | `common.dfy` | `Option`, Python's `list.index` and `list.remove`, and small set lemmas |
| `Geometry` | `geometry.dfy` | overlap tests and contact sides |
| `Walls` | `walls.dfy` | the pure geometry of `background.py`: the lattice, the wall table, wall rectangles, sample points, grid cells, dark cells, door regions and gem spots |
| `Entities` | `entities.dfy` | the mutable classes `Background`, `Door`, `Holdable`, `Player`, `Monster`, `Chest`, `Plant` and `Switch` |
| `Hercules` | `game.dfy` | the class `Game` |

The classes share one module because they refer to each other: `Holdable.wielder` and `Player.held_item` point at each other, and so do `Door.screen` and `Background.door_list`.

Objects on the background are wrapped in the datatype `Sprite`, one variant per kind of object.

## Model

| member | source | states |
|---|---|---|
| `Geometry.TouchIsSharedPixel` | weapons.py:275-280 | for boxes of positive size the half-open corner test holds exactly when the boxes share a pixel, so it is symmetric in its two boxes |
| `Geometry.ContactSideMeaning` | monster.py:348-355 | each side is reported exactly when its two facing edges are within \|tolerance\| and no earlier side in the order left, right, up, down qualifies; none is reported exactly when no side qualifies |
| `Geometry.TouchWithinMonotone` | monster.py:374-375 | the closed test with a larger tolerance is stricter: touching at `tol` implies touching at any smaller tolerance |
| `Walls.LatticeMember` | background.py:91-93 | a point is among those `one_wall`'s two `range(…, 5)` loops visit exactly when it lies in the closed rectangle on the 5-pixel phase of its top-left corner |
| `Walls.LatticeNested` | background.py:91-93 | a lattice inside another one on the same 5-pixel phase is part of it |
| `Walls.WallTableClosed` | background.py:110-118 | the wall table closes the labyrinth: north walls on the first row, south on the last, west on the first column, east on the last |
| `Walls.CellWallsInGrid` | background.py:122-131 | every cell's walls are among those of the whole grid |
| `Walls.WestEdgeSolid` | background.py:122-131 | when every cell of the first column has a west wall (as `WallTableClosed` shows for the table), every lattice point of the grid's west edge, from top to bottom, is a wall point |
| `Walls.EastEdgeSolid` | background.py:122-131 | when every cell of the last column has an east wall, every lattice point of the grid's east edge, from top to bottom, is a wall point |
| `Walls.RoomWallsPoints` | background.py:134-148 | the points of a room are the points of its top, left, bottom and right walls |
| `Walls.CorridorWallsPoints` | background.py:151-155 | the corridor adds exactly the points of its two walls |
| `Walls.AnyInWallsMeaning` | background.py:237-351 | walking the sample points finds a wall exactly when the set of samples meets the wall set, which is the test the source writes |
| `Walls.PlayerProbeShape` | background.py:237-276 | the player is sampled at eight distinct points of its box grown by 5 pixels, never at the centre |
| `Walls.MonsterProbeShape` | background.py:278-315 | a monster at least 3 pixels wide and tall is sampled at sixteen distinct points, including its two opposite corners |
| `Walls.MonsterProbeInBox` | background.py:278-315 | every point a monster is sampled at lies in its closed box |
| `Walls.ItemProbeShape` | background.py:317-351 | a held item is sampled at eight distinct points of its box grown by 10 pixels |
| `Walls.CellFormulasCompared` | background.py:365-375 | for the same point, `Player.get_new_loc`'s column is one more than `Background.get_new_loc`'s except when x % 620 ≥ 600, and its row one more except when (y − 535) % 620 ≥ 590 |
| `Walls.DarkCellsAreInnerNeighbours` | background.py:413-466 | around a player in the inner 7×7 block, `place_dark` darkens exactly the inner neighbouring cells, never the player's own |
| `Walls.AllDarkCells` | background.py:428-432 | `place_dark(all=True)` lists the 49 inner cells, rows outer and columns inner |
| `Walls.AllDarkCellsCoverInner` | background.py:428-432 | `place_dark(all=True)` covers every inner cell |
| `Walls.PanelWithinOpening` | background.py:542-563 | the inset rectangle a closing door adds lies inside the padded one an opening door removes |
| `Walls.ReopenIsOpen` | background.py:542-563 | open, close, open leaves the same walls as a single open |
| `Walls.GemSpotInsideCell` | game.py:1031-1032 | a gem no larger than a corridor, centred in its assigned cell, lies wholly on that cell's floor |
| `Entities.AttackPoints` | monster.py:417-507 | each monster's attack points lie between 5 and 10 |
| `Entities.AttackPointsDistinct` | monster.py:417-507 | two kinds of monster have the same attack points exactly when they are the same kind |
| `Entities.ExtendFollowsFacing` | monster.py:306-317 | the 10-pixel shift of `extend` points the way the sprite faces after a move in that direction |
| `Entities.HitTick` | player.py:100-118 | one call of the hit counter keeps it within 0..21; a call that leaves `hit` cleared leaves the counter at 0 or changes nothing |
| `Entities.HitFlashClimbs` | player.py:100-118 | from a fresh hit, k calls leave the counter at k while k ≤ 21 |
| `Entities.HitFlashEnds` | player.py:100-118 | the 22nd call after a hit clears it, and the 21st does not |
| `Entities.HitTicksSplit` | player.py:100-118 | running the counter k + j times is running it k times, then j times |
| `Entities.Plant.constructor` | plant.py:19-43 | a new plant is at frame 0, cannot be walked over and has `dig_lag` 0 |
| `Entities.Plant.Eat` | plant.py:55-69 | the eater gains 20 health, capped at 100; this plant, and nothing else, leaves the background objects |
| `Entities.Player.constructor` | player.py:20-63 | a new player is centred in the window with 100 health, cell (1, 1), empty hands and no hit |
| `Entities.Player.GetNewLoc` | player.py:65-84 | the player's cell is the character formula applied to the stage position |
| `Entities.Player.Place` | player.py:100-118 | the hit flag and counter move as `HitTick` says |
| `Entities.Player.DecreaseHealth` | player.py:161-171 | health drops by exactly `pts`, with no floor at 0, and the player is marked as hit |
| `Entities.Player.IncreaseHealth` | player.py:173-181 | health becomes `min(health + pts, 100)` |
| `Entities.HealingIsCapped` | player.py:181 | healing never lifts health above 100, and never lowers a health of at most 100 |
| `Entities.Holdable.constructor` | weapons.py:31-80 | a new item has been picked up 0 times, is off and is drawn at the window centre; an item created with an owner is that owner's held item |
| `Entities.Holdable.Draw` | weapons.py:100-142 | a held item sits at its wielder's position plus the offset for its frame; its background position follows, 10 pixels further along the facing side when extended; an item not in the hands keeps its position |
| `Entities.Holdable.Extend` | weapons.py:144-172 | the background position is the window position seen from the stage, pushed 10 pixels along the facing side |
| `Entities.Holdable.PickUp` | weapons.py:174-196 | the item leaves the background objects and goes into the player's hands and at the end of the item list; its pick-up count grows by exactly 1 |
| `Entities.Holdable.Drop` | weapons.py:198-221 | hands and wielder are cleared; the item leaves the item list, lands at the player's place on the background and is appended to the background objects |
| `Entities.Holdable.PlaceInBackpack` | weapons.py:223-235 | the hands and the wielder are cleared and the item is in the backpack; the item list is not touched |
| `Entities.Holdable.SelectFromBackpack` | weapons.py:237-248 | the item is back in the player's hands |
| `Entities.Holdable.ChangeState` | weapons.py:451-459 | the flashlight's state flips, so two calls restore it |
| `Entities.Holdable.TurnOn` | weapons.py:461-467 | the flashlight is on, whatever it was |
| `Entities.Holdable.TurnOff` | weapons.py:469-475 | the flashlight is off, whatever it was |
| `Entities.Holdable.Dig` | weapons.py:394-411 | a touched plant at frame 3 is eaten (frame 4, +20 health capped at 100, off the background); a touched plant at frame ≤ 2 on the background moves one frame on; otherwise nothing changes; one call never moves a plant more than one frame |
| `Entities.Chest.constructor` | chest.py:18-51 | a new chest is empty, closed at frame 0, with its counter at 0, and cannot be walked over |
| `Entities.Chest.PlaceObject` | chest.py:53-69 | the object takes the chest's position and is the chest's content, located in the chest |
| `Entities.Chest.Open` | chest.py:100-110 | within reach (tolerance −20) the chest is open at frame 1; otherwise nothing changes |
| `Entities.Chest.Close` | chest.py:112-123 | within reach (tolerance −20) the chest is closed at frame 0; otherwise nothing changes |
| `Entities.Chest.Toggle` | chest.py:86-98 | within reach the state flips, otherwise nothing changes; frame 1 exactly when open is preserved |
| `Entities.Chest.PickUpObject` | chest.py:72-84 | when the chest is open and the player within reach (tolerance −10), the content is picked up as `pick_up` does and the chest is emptied; otherwise nothing changes |
| `Entities.Chest.Place` | chest.py:125-146 | the window positions of the chest and, when open, of its content; nothing else about the content changes |
| `Entities.Monster.constructor` | monster.py:17-52 | a new monster has its kind's attack points, speed 5, frame 1, no heading, no contact side, cooldown 0, and cannot be walked over |
| `Entities.Monster.ContactRecordsOnlyOnTouch` | monster.py:336-389 | `touching` changes the recorded contact side only when it reports contact, and never clears it |
| `Entities.Monster.Touching` | monster.py:319-389 | doors use the half-open test with the monster shifted by (505, 390); other background objects report no contact; the player uses the closed test shrunk by the tolerance; the side is recorded in `collide` |
| `Entities.Monster.TouchingPlayer` | monster.py:364-389 | the player branch of `touching` |
| `Entities.Monster.TouchingBox` | monster.py:364-389 | the window test of `touching`, recording the contact side |
| `Entities.Monster.Move` | monster.py:174-281 | a move that returns true ends one `speed` step from the start along one axis and clear of the walls; a free first step is always taken; a move that fails leaves the monster where it was; `frame` matches the last heading |
| `Entities.Monster.TryStep` | monster.py:183-189 | the step towards `d` is taken and kept exactly when the new position is clear of the walls; heading and frame face `d` |
| `Entities.Monster.Place` | monster.py:284-304 | the window position is the background position seen from the stage, extended when asked; the hit counter ticks |
| `Entities.Monster.Extend` | monster.py:306-317 | the window position is pushed 10 pixels along the facing side (frames 0..3) |
| `Entities.Monster.Attack` | monster.py:391-411 | the cooldown advances only when the player is not striking, the monster touches the player at −15 on its heading side and nothing is extended; the 50th such tick costs the player `attack_pts` once and resets the cooldown, which stays in 0..49 |
| `Entities.Monster.StepAway` | monster.py:122-135 | one `speed` step along the recorded contact side, or none without one; the heading is not changed |
| `Entities.Monster.Follow` | monster.py:138-170 | hold still, or move one step towards the chosen direction when that is free |
| `Entities.Monster.TouchesAnyObject` | monster.py:113-116 | only the monster itself or a door can make the object loop report contact, and when nothing reports contact the recorded contact side is unchanged |
| `Entities.Monster.TrackPlayer` | monster.py:54-172 | the monster ends at most one step from where it was; in a wall its heading and frame are kept, it stays put when it touches the player, and otherwise (with no door or itself among the objects) it steps `speed` pixels along the contact side recorded before the call, or stays put when none was recorded; when free it follows the chosen direction; the cooldown stays in 0..49 |
| `Entities.Monster.Chase` | monster.py:66-170 | the movement part of `track_player`, with the same guarantees as `TrackPlayer` |
| `Entities.Monster.DecreaseHealth` | player.py:161-171 | as the player's |
| `Entities.Monster.GetNewLoc` | player.py:65-84 | the monster's cell is the character formula applied to its background position |
| `Entities.Door.constructor` | background.py:489-524 | the door's box is its image grown by 20 pixels; its window position uses `x_bg % 5` on both axes |
| `Entities.Door.GetPassable` | background.py:533-563 | opening removes exactly the padded lattice of the door from the walls; closing adds exactly the inset one |
| `Entities.Door.OpenDoor` | background.py:565-572 | the door is at frame 1 and its opening region has left the walls |
| `Entities.Door.CloseDoor` | background.py:574-581 | the door is at frame 0 and its panel is back in the walls |
| `Entities.Door.GemsAtDoor` | background.py:599-606 | the count of qualifying gems is at most the list's length, and 0 when none qualifies |
| `Entities.Door.OpenWithItems` | background.py:583-613 | with a list, the door opens exactly when at least `minNum` gems lie on the ground in front of it; otherwise nothing changes, and the shortfall is reported exactly when the player is in columns 1..8 below row 9 |
| `Entities.Background.constructor` | background.py:23-76 | empty walls, no doors and an empty wall table; the light switch is the only background object |
| `Entities.Background.OneWall` | background.py:78-93 | the walls grow by exactly the rectangle's lattice, shifted by the offset |
| `Entities.Background.AddLattice` | background.py:91-93 | the walls grow by exactly the rectangle's lattice |
| `Entities.Background.RemoveLattice` | background.py:547-553 | exactly the rectangle's lattice leaves the walls |
| `Entities.Background.RoomWallsOf` | background.py:136-148 | the walls grow by exactly the room's four walls |
| `Entities.Background.RoomsWalls` | background.py:134-148 | the walls grow by exactly the four walls of every room |
| `Entities.Background.SideWallOf` | background.py:124-131 | the walls grow by one side's wall when the table lists that side, and not at all otherwise |
| `Entities.Background.CellWallsOf` | background.py:124-131 | the walls grow by exactly the sides the table lists for the cell |
| `Entities.Background.ColumnWallsOf` | background.py:123-131 | the walls grow by exactly the walls of the column's nine cells |
| `Entities.Background.GridWallsOf` | background.py:122-131 | the walls grow by exactly the 81 cells' walls, columns outer |
| `Entities.Background.CorridorWallsOf` | background.py:151-155 | the walls grow by exactly the two corridor walls, when there is a corridor room |
| `Entities.Background.PlaceWalls` | background.py:95-155 | the wall table is installed and the walls grow by exactly the grid, the rooms and the corridor |
| `Entities.Background.Scroll` | background.py:178-235 | the stage position advances by exactly (dx, dy) when the move is allowed (no wall hit, inside the open bounds, no blocking object) and ends exactly where it started otherwise |
| `Entities.Background.Redraw` | background.py:192-230 | the test `scroll` makes at the new position is exactly "the move is allowed" |
| `Entities.Background.GetNewLoc` | background.py:353-375 | an item's, plant's or chest's cell is the background formula applied to its position, which does not move |
| `Entities.Background.MakeDoors` | background.py:377-402 | exactly 6 + the corridor doors are appended, all new and distinct, door k + 1 at its place in the layout; the earlier doors are kept |
| `Entities.Background.PlaceDark` | background.py:413-466 | with `all` every inner cell; otherwise, for a player in the inner 7×7 block, exactly the inner cells adjacent to the player's cell, never the player's own |
| `Hercules.PickUpRefusal` | game.py:594-611 | the refusal reason is "one item" exactly when holding something, "five items" exactly when not holding and full, and "nothing to pick up" otherwise |
| `Hercules.NextIndex` | game.py:636-650 | the next index is always a valid index |
| `Hercules.CycleRotates` | game.py:638-650 | from held index i, 'r' selects (i + 1) mod n |
| `Hercules.CycleVisitsAll` | game.py:636-652 | k presses from held index i reach (i + k) mod n, so every item comes round |
| `Hercules.EmptyHandsSkipFirst` | game.py:642-650 | with empty hands and two or more items, 'r' selects the second item |
| `Hercules.Arrow` | game.py:816-860 | the arrow keys are tried down, right, left, up; the first one held is followed |
| `Hercules.Opposite` | game.py:824-854 | the blocking test uses the heading straight back, which differs from the arrow and steps the opposite way |
| `Hercules.DamageTick` | game.py:902-910 | a blow lands exactly on the frame the counter becomes 1, and the counter wraps after 100 frames |
| `Hercules.BlowCadence` | game.py:902-910 | k frames of contact from lag `lag` land (k + (lag − 1) mod 100) / 100 blows |
| `Hercules.OneBlowPerPeriod` | game.py:902-910 | any 100 consecutive frames of contact land exactly one blow |
| `Hercules.DigitChar` | game.py:1054-1056 | a digit's character spells the digit |
| `Hercules.Decimal` | game.py:1054-1056 | `str()` of a number is a non-empty string of digits, one digit below 10 and two below 100 |
| `Hercules.DecimalRoundTrip` | game.py:1054-1056 | reading back `str(n)` gives n |
| `Hercules.Clock` | game.py:1040-1044 | the minutes and seconds shown are the whole seconds left split into minutes, with seconds below 60 |
| `Hercules.CountdownReadsBack` | game.py:1052-1056 | the countdown text is the minutes, a colon and exactly two digits of seconds, and reads back as the clock |
| `Hercules.UnfoundMeaning` | game.py:1067-1070 | the removed gems are exactly those never picked up |
| `Hercules.CollectedMeaning` | game.py:235-238 | the gems handed to the final gate are exactly those picked up at least once |
| `Hercules.GemsSplit` | game.py:235-238 | every gem either counts for the gate or vanishes with the countdown, never both |
| `Common.RemoveFirstSubsequence` | game.py:1068-1069 | Python's `list.remove` leaves the other elements in their order |
| `Common.SubsequenceTrans` | game.py:1066-1070 | removing elements one after another still leaves a subsequence of the original list |
| `Hercules.DropUnfound` | game.py:1066-1070 | the loop removes exactly the never-picked-up gems (as a multiset) from the available items and from the background objects, and what remains of each list keeps its order (a subsequence of the old list) |
| `Hercules.Game.constructor` | game.py:28-137 | no monster yet, nothing available, counters at 0, eight minutes of gem time; the flashlight is the last flashlight among the weapons |
| `Hercules.Game.FirstEligible` | game.py:571-576 | the item found is eligible and no earlier item is; with none found, no item is eligible |
| `Hercules.Game.FindCandidate` | game.py:571-576 | the search loop finds the first eligible item |
| `Hercules.Game.DropStep` | game.py:548-568 | 'f' with an item drops it as `drop` does; with empty hands "nothing to drop" is reported once per press; releasing 'f' unlatches; the backpack invariants hold |
| `Hercules.Game.TakeStep` | game.py:578-615 | 'd' picks up the first eligible item unless the chest latch is set; a gem's first pick-up counts and the potion completes the game; a refused 'd' changes no inventory and reports `PickUpRefusal` once per press |
| `Hercules.Game.Take` | game.py:579-591 | the pick-up itself, with the gem count and the completion flag |
| `Hercules.Game.StoreStep` | game.py:617-626 | 'e' puts the held item in the backpack, or reports "nothing to place", once per press |
| `Hercules.Game.HeldIndex` | game.py:638-639 | the held item's index in the item list, present exactly when something is held |
| `Hercules.Game.CycleStep` | game.py:628-670 | while 'r' is held with items the counter runs 1..40 and wraps, and on its first tick the item at `NextIndex` is taken in hand; with no items "backpack empty" is reported once; the item list never changes |
| `Hercules.Game.Switch` | game.py:636-653 | the held item goes into the backpack and the next item into the hands |
| `Hercules.Game.DropOrTake` | game.py:548-615 | the 'f' and 'd' keys keep the backpack invariants; a newly held item comes from the available items |
| `Hercules.Game.StoreOrCycle` | game.py:617-670 | the 'e' and 'r' keys keep the backpack invariants and never change the item list |
| `Hercules.Game.ManipulateBackpack` | game.py:543-670 | the player never carries more than five items, a held item is a carried item in the player's hands, and every loose available item lies on the background |
| `Hercules.Game.FlashlightStep` | game.py:677-706 | while 'q' is held with the flashlight in hand its counter runs 1..80 and the light switches on tick 1; another item reports an error; releasing 'q' resets; a flashlight not in hand is off |
| `Hercules.Game.ChestsStayOn` | game.py:712-737 | the chest invariants survive when only non-items leave the background |
| `Hercules.Game.ChestLagStep` | game.py:715-731 | the chest's counter runs 1..40 while 'w' is held and toggles on tick 1; releasing 'w' resets it |
| `Hercules.Game.ChestTakeStep` | game.py:733-737 | with 'd', empty hands and a takeable item, the item is taken when the chest is open and within reach; the latch written is the never-read `bg_error_type` |
| `Hercules.Game.ServeChest` | game.py:713-737 | one chest's counter ticks and the chest changes state only on tick 1; the item list changes only by this chest's content joining it, emptying the chest |
| `Hercules.Game.ChestStep` | game.py:711-737 | each chest's counter advances with 'w' and resets without it, and a chest changes state only on tick 1; nothing leaves a chest without 'd' and empty hands |
| `Hercules.Game.DigStep` | game.py:743-766 | plants only leave the list when eaten (frame 4) and move at most one frame; with no shovel extended nothing is dug; a wrong tool touching a plant raises the shovel-only error |
| `Hercules.Game.TendPlant` | game.py:745-757 | the dig counter advances and wraps after 40; the plant moves one frame on exactly when the counter stood at 1 and the shovel touches it; at frame 4 it was eaten (+20 health capped at 100, off the background), and otherwise nothing else changes |
| `Hercules.Game.DigPlants` | game.py:743-761 | each visited plant is tended; an eaten plant leaves the list while it is walked, so the plant after it is skipped this frame |
| `Hercules.Game.DigVisit` | game.py:747-761 | the plant at the index moves at most one frame and is removed from the list exactly when it reaches frame 4 |
| `Hercules.Game.WarnPlants` | game.py:763-766 | the error is raised exactly when an extended item that is not the shovel touches some plant |
| `Hercules.Game.ResetDigLags` | game.py:769-771 | with nothing extended every plant's dig counter is 0 |
| `Hercules.Game.KeyTarget` | game.py:780-782 | the only door a held item can open is door n − 1 of the list, where n is the number of the key in hand; every key numbered from 1 has such a door |
| `Hercules.Game.Refused` | game.py:779-793 | the door loop refuses the held item exactly when some touched closed door is not the one its key opens |
| `Hercules.Game.DoorRefusal` | game.py:780-793 | a wrong key reports the wrong-key hint and any other item reports that only keys open doors |
| `Hercules.Game.ServeDoor` | game.py:777-793 | one door opens (frame 1, its opening off the walls) exactly when it is the touched closed door of the held key, otherwise nothing about it changes; a refused item raises the error |
| `Hercules.Game.DoorStep` | game.py:777-793 | a closed door opens exactly when the extended held key whose number is its index + 1 touches it, and its opening leaves the walls; no other door or wall point changes; other items raise the wrong-key or only-keys error |
| `Hercules.Game.ItemInteraction` | game.py:672-793 | the flashlight, chest, plant and door loops in order, keeping the backpack, chest and plant invariants |
| `Hercules.Game.FlashlightAndChests` | game.py:677-737 | the flashlight step and then the chest loop keep the backpack, chest and plant invariants |
| `Hercules.Game.PlantsAndDoors` | game.py:743-793 | the plant loop, the counter reset and the door loop keep the chest and plant invariants and leave every dig counter at 0 when nothing is extended |
| `Hercules.Game.PlantStep` | game.py:743-771 | the plant loop and the counter reset keep the invariants and leave every dig counter at 0 when nothing is extended |
| `Hercules.Game.Request` | game.py:821-860 | the stage moves five pixels towards the arrow unless blocked, and not at all without an arrow |
| `Hercules.Game.MovePlayer` | game.py:816-860 | the player faces the first held arrow and the stage moves by `Request` when `scroll` allows it, staying put otherwise |
| `Hercules.Game.Blocked` | game.py:824-854 | the monster is asked whether it touches the player only when its last heading was straight back |
| `Hercules.Game.Strike` | game.py:890-918 | keys, the flashlight and gems only raise the error; other items land the table's damage on lag 1 of a 1..100 counter; releasing resets the lag |
| `Hercules.Game.MonsterInteraction` | game.py:886-918 | the level advances by at most one, and only when an item that can hurt strikes the monster; the damage counter stays below 100 and the active monster matches the level |
| `Hercules.Game.NextLevel` | game.py:1083-1123 | after any level but the last, the level grows by one, its monster becomes active and its weapon goes into the previous chest; after the last the final level begins |
| `Hercules.Game.Advance` | game.py:1088-1119 | the key lands at the beaten monster's position + (575, 475); the next monster leaves the background and its door opens |
| `Hercules.Game.Release` | game.py:1102-1119 | the key and the new weapon join the background objects, the key becomes available, and the new monster's door opens |
| `Hercules.Game.Levels` | game.py:1125-1141 | the level's monster is active, its weapon available and, after level 0, in the previous monster's chest |
| `Hercules.Game.FinalLevel` | game.py:1143-1177 | the beaten monster's key lands at its position + (575, 475), the final key goes into the last chest, both join the background objects and become available, and no monster is active |
| `Hercules.Game.GemCountdown` | game.py:1034-1078 | one frame passes and the text shows the clock; on the frame time runs out the text is blank and exactly the never-picked-up gems leave the available items and the background objects, the rest keeping their order |
| `Hercules.Game.RemoveUnfound` | game.py:1066-1070 | the never-picked-up gems leave both lists, and the rest keep their order |
| `Hercules.Game.OpenFinalDoor` | game.py:234-241 | the gate opens exactly when at least five picked-up gems lie in front of door 8; otherwise the shortfall is reported exactly when the player is in the corridor |
| `Hercules.Game.FinalGate` | game.py:232-241 | the gate acts only after the last level while door 8 is closed, with the guarantees of `OpenFinalDoor` |

## Left out

- Rendering is left out: images, `blit`, health bars, the text box and its 240-frame timer, story and instruction screens, the menu, the pause screen, `beat_game`, the win and lose screens, and `set_background_image`. Only the position arithmetic of `draw`, `place` and `extend` is kept.
- Input is a per-frame snapshot of the keys (`Keys`). Mouse clicks on the light switch and the buttons are left out.
- The top-level frame loop in `main.py`, `Game.gameplay`'s sequencing apart from the final gate, `tick`, `setup` and the tutorial are left out.
- `Entities.Monster.TrackPlayer` and `Entities.Monster.Follow`: the float probabilities, `move_rate` and every `random.random()` call are replaced by inputs. `Steer` gives the chosen direction and `recovery: seq<bool>` gives each right-angle choice.
- `Entities.Monster.Move`: the mutual recursion of `move_left`/`right`/`up`/`down` is bounded by the length of `recovery`. When it runs out, the monster stays where it was, whereas the source would keep trying.
- `Weapon.damage_pts` is read from a CSV file with pandas; here it is the table parameter `damage` of `Game`.
- `Potion.use_potion` is only reached through `beat_game`'s animation, and is not part of this model.
- `random_gem_locations`: only `Walls.GemSpot`, the position of a gem in its assigned cell, is modelled. The random choice of distinct cells is not.
- `place_player`, `place_monster` and `darken_labyrinth` only draw and call modelled operations. `place_one_dark`'s pixel arithmetic is drawing.
- Objects are drawn at integer sizes given as parameters, because the source takes them from images.
- `Hercules.Game.ChestStep`, `Hercules.Game.ItemInteraction`, `Hercules.Game.MonsterInteraction` and `Hercules.Game.PlantsAndDoors` state the invariants and the per-chest or per-plant counters. Their full effect is stated by the step methods they call: `ServeChest`, `TendPlant`, `DoorStep`, `Strike` and `NextLevel`.
- `Hercules.Game.DigStep`: the test "the shovel is in hand and extended" does not change inside the plant loop, so it is made once before the loop.
- `Hercules.Game.MovePlayer`: the source calls `scroll(0, 0, …)` for a blocked step and `scroll(dx, dy, …)` otherwise. The model makes one `scroll` call with the requested displacement, (0, 0) when blocked, which is the same thing.
- `Hercules.Game.GemCountdown`: `time_left` is decremented after the removal rather than before. Nothing between the two reads it.
- `Hercules.Game.RemoveUnfound`: the two lists are edited in local copies and stored back. The source edits them in place, and nothing else reads them meanwhile.
- `Entities.Background.CellWallsOf` adds each side through its rectangle (`Walls.SideWall`), which is the rectangle `place_walls` writes out for that side.
- Python's negative list indexing is not modelled: levels are taken to be at least 0, as `main.py` starts at level 0.
- Reproduced as the source behaves:
  - the no-op `self.previous == …` comparisons in `track_player` (the heading is kept);
  - the `bg_error_type` typo in `item_interaction` (the chest latch `d_chest` is never set);
  - removing eaten plants from the list while walking it;
  - the door's window y using `x_bg % 5`.
