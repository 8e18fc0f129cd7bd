# Arena shooter simulation core, in Dafny

A model of the simulation core of `main.py`, a small top-down arena shooter.
The player's avatar moves with the W, S, A and D keys, turns toward the mouse
pointer and fires bullets with the left button. Enemies spawn at random
points, at most five at a time, and walk straight at the player. Each frame:
- the held keys move the player;
- an enemy may spawn;
- every enemy steps one unit toward the player;
- every bullet flies and is dropped once it leaves the arena;
- collisions are resolved. An enemy in contact with the player costs it 10
  health and disappears. An enemy hit by a bullet disappears together with
  that bullet.

The session ends after a frame in which the window was closed or at whose end
the player's health is zero or below.

The model keeps the program's shape:
- **Entities.** `Player`, `Enemy` and `Bullet` are classes whose `pos` the
  methods update in place (`entities.dfy`).
- **List removal.** Python's `list.remove` deletes the first element equal to
  its argument. For these objects "equal" means the same object. `Lists.Remove`
  models it.
- **The game.** The game is a class `Shooter.Game` holding the enemy and bullet
  lists as sequences. Its methods mirror `spawn_enemy`, `shoot`, `update`,
  `check_collisions` and `run`, with the loops of the source as loops with
  invariants.
- **Specifications.** Each loop is proved against a pure specification:
  - `Culling.Survivors` for the bullet loop;
  - `Shooter.FirstBlocked` with `Shooter.Pursued` for the pursuit loop;
  - `Collisions.Resolve` for `check_collisions`;
  - `Shooter.Aim` and `Shooter.ShotAngles` for the event loop;
  - `Shooter.KeyPath` and the stop rule of `Shooter.Game.Tick` for the run loop.

  Lemmas then prove what the game promises about these specifications.
- **Library calls.** `math.hypot`, `math.atan2`, `math.cos` and `math.sin`
  are values of `Geometry.MathLib` passed in. `Geometry.Lawful` states the two
  facts the game relies on:
  - hypot is the non-negative square root of the sum of squares;
  - cos and sin of an angle lie on the unit circle.

Two exceptions can escape a frame, and the model keeps both as
`Entities.Outcome`:
- `ZeroDivisionError`: an enemy exactly on the player makes `move_towards`
  divide by a zero distance.
- `ValueError`: an enemy that is in contact with the player and also hit by a
  bullet in the same frame is removed twice. The bullet scan of
  `check_collisions` runs even for an enemy the contact test has just removed.

## Model

| member | source | states |
|---|---|---|
| Geometry.HypotZero | main.py:33-34 | with a lawful hypot, the distance `move_towards` divides by is zero exactly when the offset to the player is zero |
| Geometry.HypotBelow | main.py:104-108 | a `hypot(...) < r` test with r > 0 is the squared-distance test `dx*dx + dy*dy < r*r` |
| Geometry.TowardDistance | main.py:30-36 | a pursuit step moves exactly one unit, and the squared distance to the target becomes (dist - 1)² |
| Lists.Remove | main.py:98 | `list.remove` of a present element shortens the list by one and introduces no element |
| Lists.RemoveCount | main.py:106 | `list.remove` takes out exactly one copy of the element: the old multiset is the new one plus that element |
| Lists.RemoveDistinct | main.py:106 | in a list without repeats, `remove` takes out the element completely, keeps every other element and keeps the list free of repeats |
| Lists.AppendDistinct | main.py:74 | appending a new object keeps a list free of repeats |
| Lists.RemoveFirst | main.py:98 | removing an object from a list whose earlier part does not hold it cuts out exactly that position |
| Lists.DistinctCount | main.py:110 | a list without repeats holds each value at most once |
| Lists.CountDistinct | main.py:110 | a list holding each value at most once has no repeats |
| Entities.Player.constructor | main.py:6-9 | a new player is at (x, y), faces angle 0 and has 100 health |
| Entities.Player.Move | main.py:11-13 | the position shifts by exactly (dx, dy), with no clamping; angle and health are unchanged |
| Entities.Player.Rotate | main.py:15-16 | the angle becomes atan2 of the offset from the player to the pointer; position and health are unchanged |
| Entities.Enemy.constructor | main.py:27-28 | a new enemy is at (x, y) |
| Entities.Enemy.MoveTowards | main.py:30-36 | the step raises ZeroDivisionError exactly when hypot of the offset is zero, and then the enemy stays put; otherwise the enemy moves by the offset divided by the distance |
| Entities.Bullet.constructor | main.py:44-47 | a new bullet starts at (x, y) with velocity (cos, sin)·10, whose squared length is 10² under a lawful library |
| Entities.Bullet.Update | main.py:49-51 | a tick moves the bullet by exactly its own (dx, dy) |
| Culling.SurvivorsMembers | main.py:95-98 | a bullet survives culling exactly when it was in the list and is inside [0, width) × [0, height) |
| Culling.SurvivorsDistinct | main.py:95-98 | culling never duplicates a bullet |
| Culling.SurvivorsStep | main.py:95-98 | the survivors of one more bullet are the earlier survivors followed by that bullet when it is on screen |
| Culling.FlyOrDrop | main.py:95-98 | one turn of the bullet loop: the live list goes from the survivors of the first i bullets, followed by the rest, to the survivors of the first i + 1, followed by the rest; bullet i has flown and the others have not |
| Culling.Cull | main.py:95-98 | over the snapshot, every bullet flies exactly once by its own velocity, and the list left is exactly the on-screen bullets in their original order |
| Collisions.TouchesNear | main.py:104 | the contact test is a squared distance below 20² (SIZE // 2 + 10) |
| Collisions.HitsNear | main.py:108 | the hit test is a squared distance below 13² (SIZE // 2 + 3) |
| Collisions.FirstHit | main.py:107-111 | the index found is that of a bullet within the hit range, and no earlier bullet is within it |
| Collisions.Shoot | main.py:107-111 | the bullet scan raises exactly when some bullet hits and the enemy is no longer live; it only removes, and keeps health |
| Collisions.Step | main.py:103-111 | one iteration costs DAMAGE health exactly when the enemy is in contact with the player; it only removes |
| Collisions.Resolve | main.py:102-111 | the pass never raises health; it raises only after reaching at least one enemy, and reaches all of them when it does not raise; it only removes |
| Collisions.FindHit | main.py:107-111 | the inner loop over the bullets stops at the first bullet that hits |
| Collisions.CollideOne | main.py:103-111 | one iteration of the loop leaves the lists and health of `Step` and raises ValueError exactly when `Step` does |
| Collisions.Collide | main.py:102-111 | the loop over the enemy snapshot leaves the lists and health of `Resolve` and raises ValueError exactly when `Resolve` does |
| Collisions.ResolveFirst | main.py:103-111 | the pass is its first iteration, then, unless that raised, the pass over the rest |
| Collisions.ShotsAppend | main.py:109-110 | the shot enemies and bullets of two runs of shots concatenate |
| Collisions.ShootAccounting | main.py:107-111 | the bullet scan shoots at most once, with a bullet that hits; it removes exactly that bullet and, when it does not raise, exactly that enemy |
| Collisions.StepAccounting | main.py:103-111 | an iteration removes from the live enemies exactly the enemy once for its contact and once for its shot, and from the bullets exactly its shot's bullet |
| Collisions.StepKeepsOthers | main.py:103-111 | an iteration removes no live enemy other than its own |
| Collisions.ResolveHealth | main.py:104-105 | health drops by exactly 10 × the number of enemies the pass reached that are in contact with the player |
| Collisions.ResolveBullets | main.py:108-110 | every bullet removed is paired with the enemy it destroyed: bullets before = bullets after + shot bullets |
| Collisions.ResolveEnemies | main.py:104-110 | in a pass that does not raise, enemies before = enemies after + enemies in contact + shot enemies |
| Collisions.ResolveShots | main.py:107-110 | every shot pairs an enemy of the snapshot with a bullet of the list that is within the hit range of it |
| Collisions.ShotsJoin | main.py:107-110 | the shot pairing survives joining the first iteration's shots with the rest's |
| Collisions.ShotsOnce | main.py:107-111 | from a bullet list without repeats, no bullet destroys two enemies, and a bullet that destroyed an enemy is gone from the list |
| Collisions.CrashCause | main.py:104-110 | when the snapshot has no repeats and is live, the pass raises only at an enemy in contact with the player and within hit range of a bullet, and that bullet is still in the list the pass leaves |
| Collisions.CrashOnContactAndHit | main.py:104-110 | conversely, a live enemy in contact and within hit range of a bullet makes the pass raise in its own iteration, after DAMAGE and one removal |
| Collisions.ResolveDistinct | main.py:102-111 | the pass keeps both lists free of repeats |
| Shooter.KeyShift | main.py:80-88 | W moves up 2, S down 2, A left 2 and D right 2; opposite keys cancel |
| Shooter.ShotCount | main.py:135-137 | the frame fires exactly as many bullets as there are presses of button 1 |
| Shooter.AimUnmoved | main.py:132-134 | without a mouse motion the angle is unchanged |
| Shooter.AimLast | main.py:132-134 | the angle is atan2 of the offset to the pointer of the last mouse motion |
| Shooter.KeyPathJoin | main.py:80-88 | the keys of two runs of frames, one after the other, move the player as the second does from where the first left it |
| Shooter.KeyPathIdle | main.py:80-88 | frames with no movement key held leave the player where it was |
| Shooter.FirstBlocked | main.py:92-93 | the index found is that of the first enemy whose step divides by zero |
| Shooter.ChaseOne | main.py:92-93 | one turn of the pursuit loop moves enemy i one step, or raises without moving it exactly when its step is blocked |
| Shooter.BlockedOnTarget | main.py:33-34 | with a lawful hypot, a step is blocked exactly when the enemy sits on the player |
| Shooter.SteppedDistance | main.py:30-36 | with a lawful hypot, a pursuit step covers exactly one unit and brings the enemy from dist to \|dist - 1\| away |
| Shooter.Game.constructor | main.py:57-68 | a new game has the player at (width // 2, height // 2) with 100 health, and no enemies or bullets |
| Shooter.Game.MoveByKeys | main.py:80-88 | the player moves by exactly the keys' shift; health and angle are unchanged |
| Shooter.Game.SpawnEnemy | main.py:70-74 | below 5 enemies, exactly one new enemy is appended at the drawn point inside [0, width] × [0, height]; otherwise the list is unchanged; the cap holds |
| Shooter.Game.Shoot | main.py:76-77 | exactly one new bullet is appended, at the player's position and along its angle; enemies and earlier bullets are unchanged |
| Shooter.Game.Pursue | main.py:92-93 | the enemies before the first blocked one each step toward the player, and the rest stay put; the loop raises ZeroDivisionError exactly when some enemy is blocked |
| Shooter.Game.CullBullets | main.py:95-98 | the bullet list becomes the survivors of the old list, after every old bullet has flown once |
| Shooter.Game.CheckCollisions | main.py:102-111 | the lists and health become those of `Resolve` over the snapshot; it raises ValueError exactly when `Resolve` does, and then an enemy of the snapshot was in contact with the player and hit by a bullet still in the list; the game's invariant is kept |
| Shooter.Game.Prepare | main.py:80-90 | the keys move the player by their shift; exactly one new enemy is appended, at the drawn point inside [0, width] × [0, height], when fewer than 5 are alive, and none otherwise |
| Shooter.Game.Settle | main.py:95-111 | every bullet flies once by its own velocity; the lists and health become those of `Resolve` over the enemies and the on-screen survivors where they now are, and it raises ValueError exactly when `Resolve` does, then with an enemy in contact with the player and hit by a bullet still in the list |
| Shooter.Game.Advance | main.py:92-111 | the enemies before the first one blocked on the player step toward it and the rest stay put; it raises ZeroDivisionError exactly when an enemy is blocked on the player, and then leaves the enemy list, the bullets and the contact count as they were; otherwise every bullet flies once by its own velocity, and the lists and health become those of `Resolve` over the enemies and the surviving bullets, and it raises ValueError exactly when `Resolve` does |
| Shooter.Game.Update | main.py:79-100 | a frame moves the player by the keys' shift, keeps the game's invariant, never raises health and adds no bullet; it raises ZeroDivisionError exactly when an enemy or the spawned one is blocked on the player's new position, and then the bullets are untouched and the enemy list is the old one plus the spawned enemy, if any; otherwise every bullet flies once by its own velocity; it raises ValueError only with an enemy, present or spawned, in contact with the player and hit by a bullet still in the list |
| Shooter.Game.HandleEvents | main.py:129-137 | the frame's events: quit exactly when a Quit event came, the angle after the last mouse motion, and one new bullet per fire press, in order |
| Shooter.Game.Tick | main.py:129-144 | the frame's events, then the update: the player ends where the frame's keys move it and faces the last mouse motion; health never rises; it raises ZeroDivisionError exactly when an enemy, or the spawned one, is blocked on the player; it raises ValueError only with an enemy, present or new, in contact with the player and hit by a bullet still in the list; the lists hold only earlier or new objects; the loop goes on exactly when nothing was raised, the frame had no Quit event and health is above zero |
| Shooter.Game.Run | main.py:126-144 | the player ends where the keys of exactly the frames run move it; the session ends as WindowClosed only after a frame with a Quit event and as PlayerDown only after a frame without one that left health at zero or below; no frame before the last had a Quit event; a ZeroDivisionError crash leaves some enemy blocked on the player, and a ValueError crash some enemy, present at the start or spawned since, in contact with the player and hit by a bullet still in the list; an exhausted input ran every frame, none with a Quit event, and, unless there were no frames, ends with health above zero |

## Left out

- Rendering is not modelled: the `draw` methods, `draw_health`, `screen.fill`, `display.flip` and the colours. They only call pygame.
- Window and timing plumbing is not modelled: `pygame.init`, `set_mode`, `set_caption`, `clock.tick(60)` and `pygame.quit`. They are library calls without logic.
- Event polling and `key.get_pressed` become inputs: `Shooter.Frame` holds one frame's events, its held keys and its spawn draw.
- `random.randint` becomes the spawn coordinates, passed in. Its inclusive range is a precondition of `Shooter.Game.SpawnEnemy`.
- `math.hypot`, `math.atan2`, `math.cos` and `math.sin` are not defined. They are fields of a `MathLib` value, and `Lawful` states the only facts used about them. atan2 has no law.
- Floating-point rounding is not modelled: positions, angles and velocities are exact reals.
- The collision specification takes a snapshot of positions (`Collisions.Layout`) instead of reading the objects. `check_collisions` moves nothing, so both give the same answer. `Collisions.Collide` reads the objects, as the source does, and requires the snapshot to agree with them.
- The game ghost field `contacts` counts contacts, so that the invariant can state health as 100 - 10 × contacts. The source has no such counter.
- Shooter.Game.Run: the session ends when its finite input runs out (`InputExhausted`). The source keeps running frames, however long, until a Quit event or health at zero or below.
- Shooter.Game.Run: its contract relates only the start and the end of the session, so it does not state the health at the end of each intermediate frame. `Shooter.Game.Tick` states the stop rule for each frame, and Run's loop continues exactly on Tick's `running`. A crash is tied to its cause only in the direction stated for `Shooter.Game.Update`.
- Shooter.Game.Update: states the player's new position, the invariant, the membership of the lists and the health bound. Apart from the ZeroDivisionError outcome, where the lists are stated exactly, it does not state their exact contents. Those are stated by the two methods it calls: `Prepare` (keys and spawn) and `Advance` (pursuit, culling and collisions, exactly as `Resolve`).
- Shooter.Game.Tick: states the position, the angle, the health bound, when each exception is raised and the stop rule; ValueError is tied to its cause in one direction only, as for `Shooter.Game.Update`. It does not state the exact contents of the lists. Those are stated by the methods it calls: `HandleEvents`, then `Prepare` and `Advance` through `Update`.
- Shooter.Game.Update: the ValueError outcome is tied to its cause (an enemy in contact and hit) but not conversely. The collision pass walks the enemy list after the spawn, which its two-state contract does not name. `Shooter.Game.Advance` states the outcome exactly, over that list, and `Collisions.CrashOnContactAndHit` states the converse for the collision pass.
- Collisions.CrashOnContactAndHit: covers the first enemy of the snapshot. `Collisions.ResolveFirst` carries it to later ones.
- No skip after a contact removal: main.py:104-111 has no `continue` after the contact removal, so the bullet scan still runs for that enemy, and a hit makes the second `remove` raise ValueError. The model follows the code.
