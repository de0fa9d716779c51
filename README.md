# unnamed — a verified model of the arena game's core

`unnamed` is a small top-down pygame shooter. The player walks a tiled arena
with the `a`, `d`, `w` and `s` keys. A rifle turns to follow the mouse, and
each left click fires a bullet that costs one round. Ammunition pickups
appear now and then; standing on one gives twelve rounds, and at most four
lie about at a time. One enemy at a time roams the walkability grid. When
the player comes close, it plans an A* path and chases the player. Each
bullet that hits the enemy takes one of its four health points. A kill is
counted when the last point goes, and a new enemy appears after a random
delay. The game ends when the enemy touches the player.

The repository has two revisions of the game loop:

- `scripts/game.py` (`Game`): its ticks are held back by a start delay, and
  `update` ends the game early on contact.
- `main.py` (`Main`): an earlier, self-contained version. It only clears
  `running` on contact and plays out the rest of the tick.

Both revisions drive the same sprites:

- `scripts/entities.py`: the shared `Entity` part, `Player` and `Enemy`;
- `scripts/objects.py`: `Bullet`, `Obtainable_Item` (the pickup) and `Gun`;
- `scripts/camera.py`: `Camera`.

The modules of the model follow that structure:

- `Geometry` (geometry.dfy): pygame's `Vector2` as a pair of reals, and the
  integer `Rect` with its collision rules.
- `Navigation` (navigation.dfy): the walkability grid, the grid nodes a path
  search is asked about, and the enemy's tagged path.
- `Entities` (entities.dfy): the animation state, the `Entity` class, and the
  `Player` and `Enemy` classes. Each of them owns an `Entity` instead of
  inheriting from it. The enemy's path rules and health bar are pure
  functions.
- `Objects` (objects.dfy): the gun angle and its rotated-image cache, the
  `Gun`, `Bullet` and `Pickup` classes.
- `CameraView` (camera.dfy): the camera and its offset.
- `Combat` (combat.dfy): the `Arena` class. It holds the state both
  revisions share: the player, the rifle, the enemy slot, the bullet and
  pickup groups and the three timers. It also holds `shoot`, `spawn_ammo`,
  `spawn_enemy`, `manage_hit` and every step of a tick. The pickup loop and
  the bullet loop are loops over a snapshot of their group, each specified
  by a function of the snapshot (`AfterPickups`, `AfterBullets`).
- `GameScript` (game.dfy): the `Game` class with its constants, `reset` and
  `update`.
- `MainScript` (main_loop.dfy): the `Main` class with its constants and
  `main_game`.

What a tick reads from outside the game state is passed in as parameters:

- the clock (`now`, one value per tick);
- the mouse button;
- the aim angle;
- the pressed keys;
- the unit vectors `normalize()` returns, and the direction
  `Vector2(1, 0).rotate(angle)` a bullet flies along;
- the random positions and the random respawn delay;
- the A* search, as a function from two cells to a path;
- the sizes of rotated images.

## Model

| member | source | states |
|---|---|---|
| Geometry.ToIntTruncates | scripts/entities.py:63 | a float coordinate becomes an integer by truncation toward zero: within one below a non-negative value, within one above a negative one, and symmetric under negation |
| Geometry.FloorDiv | scripts/entities.py:134-135 | `int(a // b)` for a positive `b` is the integer `q` with `q <= a / b < q + 1` |
| Geometry.Rect.WithCenter | scripts/objects.py:95 | assigning `rect.center` puts the centre there and keeps the size |
| Geometry.Rect.Resized | scripts/objects.py:96 | assigning `rect.size` keeps the top-left corner and sets the size |
| Geometry.Rect.Inflated | scripts/entities.py:192 | `inflate((3, 3))` adds the amounts to the width and the height and moves the corner back by half of each, rounded down |
| Geometry.RectAround | scripts/entities.py:40 | `get_rect(center=pos)` has the image's size and its centre at the truncated position |
| Geometry.CloserIsDistanceBelow | scripts/entities.py:228-237 | comparing squared distances is the same as comparing the distance itself with the limit |
| Geometry.CollidingIffCommonPoint | scripts/entities.py:285-286 | `colliderect` is true exactly when some integer point lies in both rects |
| Geometry.CollidingSymmetric | scripts/entities.py:285-286 | whichever rect asks, the collision answer is the same |
| Geometry.ContainedCollides | scripts/objects.py:31 | a non-empty rect that the screen contains collides with the screen |
| Navigation.Plan.Popped | scripts/entities.py:263 | `path[0].pop(0)` drops the first waypoint, keeps the others in order and keeps the tag |
| Navigation.ClampIndex | scripts/entities.py:196-197 | the clamped index lies in the range and equals the input when the input already does |
| Navigation.Grid.CellAt | scripts/entities.py:134-135 | the cell of a position is the floor of the position divided by the tile size, on each axis |
| Navigation.Grid.EndpointAsWritten | scripts/entities.py:194-202 | as written, the column index is `min(cell, rows - 1)` and the row index `min(cell, cols - 1)`: an index at or below its cap is kept, one above it becomes the cap, and nothing clamps at 0 |
| Navigation.Grid.Endpoint | scripts/entities.py:194-202 | the corrected node always lies in the grid: on each axis an index inside the grid is kept, one below 0 becomes 0 and one past the last becomes the last (`cols - 1` for the column, `rows - 1` for the row) |
| Navigation.Grid.FindPath | scripts/entities.py:194-205 | `find_path` returns the search's path between the two endpoints, tagged with the given reason |
| Navigation.CellOfNonNegative | scripts/entities.py:196-197 | a position with non-negative coordinates lies in a cell with non-negative indices |
| Navigation.AsWrittenAgreesOnSquareGrid | scripts/entities.py:194-202 | on a square grid, with non-negative positions, the node as written is the corrected node |
| Navigation.AsWrittenLeavesGrid | scripts/entities.py:194-202 | on a grid with more rows than columns, a position at or past the last column gives a node outside the grid |
| Entities.Animation.Next | scripts/entities.py:66-69 | `next` on an animation's cycle shows the frame the cycle stands on and moves the cycle on by one, wrapping at the frame count |
| Entities.Animation.Switched | scripts/entities.py:50-55 | `set_state` changes anything exactly when the state is a known animation other than the current one; it then switches to it, takes that animation's next frame and resets the timer |
| Entities.Animation.Ticked | scripts/entities.py:65-69 | the frame timer grows by `dt / 60`; on reaching the delay, the next frame of the current animation is shown and the timer restarts; a still image never changes |
| Entities.StartAnimation | scripts/entities.py:26-38 | a still image starts in state "idle"; an animated one starts on its first animation, with frame 0 shown and that animation's cycle moved on by one |
| Entities.SwitchedIdempotent | scripts/entities.py:50-55 | calling `set_state` twice with the same name is the same as calling it once |
| Entities.Limited | scripts/entities.py:59-60 | a velocity of length at least 1 becomes the unit vector along it; a shorter one is kept |
| Entities.LimitedStepIsShort | scripts/entities.py:57-62 | one movement step with the limited velocity moves a body no farther than its speed |
| Entities.ClampAxis | scripts/entities.py:74-86 | `max(lo + size // 2, min(v, hi - size // 2))`: unchanged between the bounds, the lower bound below them, the upper bound above them, and the lower bound whenever the bounds cross |
| Entities.ClampBox | scripts/entities.py:74-86 | `clamp` clamps each axis on its own |
| Entities.ClampBoxIdempotent | scripts/entities.py:74-86 | clamping a clamped position changes nothing |
| Entities.Entity.constructor | scripts/entities.py:17-48 | a new entity stands still at `pos`, with the full speed, its starting animation and its rect centred on `pos` |
| Entities.Entity.SetState | scripts/entities.py:50-55 | only the animation changes, as `Switched` says |
| Entities.Entity.Update | scripts/entities.py:57-69 | the speed becomes `base_speed * dt`, the velocity is limited, the position moves by velocity times speed, the rect follows, and the animation ticks |
| Entities.KeyVelocity | scripts/entities.py:117-130 | `d` sets x to 1 and overrides `a`, which sets it to -1; `s` sets y to 1 and overrides `w`, which sets it to -1; with neither key of an axis pressed, that axis is 0 |
| Entities.PlayerMove | scripts/entities.py:132-153 | the keys' velocity and `moved` flag are kept unless the position one step ahead lies in a blocked cell, which zeroes both |
| Entities.PlayerMoveAvoidsBlockedCells | scripts/entities.py:132-149 | a kept non-zero velocity never leads one step ahead into a blocked cell, and a cell outside the grid never blocks |
| Entities.Player.constructor | scripts/entities.py:90-109 | a new player has 24 rounds, no kills, has not moved and is not flipped |
| Entities.Player.Update | scripts/entities.py:111-153 | after the entity update, the velocity and `moved` are those of `PlayerMove` at the new position; the position is clamped into the background; the rect is left where the entity update put it; ammunition and kills are unchanged |
| Entities.Player.Pose | scripts/game.py:261-264 | the animation switches to "running" when the player moved and to "idle" otherwise; position, velocity and rect are unchanged |
| Entities.Replan | scripts/entities.py:237-248 | a search is issued exactly when the path is not kept; it is a chase search exactly when the enemy is chasing |
| Entities.FirstPlan | scripts/entities.py:225-226 | an enemy without a path plans a roam path to the roam destination; an existing path is kept |
| Entities.ModeBlockFollowsMode | scripts/entities.py:228-248 | after the mode block, the tag is "chase" exactly when chasing; the path is kept exactly when `Keeps` holds; otherwise it is a fresh search toward the player (chasing) or the roam destination (roaming) |
| Entities.PlannedFollowsDistance | scripts/entities.py:225-248 | the same, for the whole planning step, with "chasing" meaning the player is nearer than the chase distance |
| Entities.RoamAsksForQuarterSpeed | scripts/entities.py:255-260 | a roaming enemy asks for a quarter of the squared speed that a chasing one asks for toward the same waypoint |
| Entities.PursuitVelocity | scripts/entities.py:250-260 | with a waypoint ahead, the velocity is the direction to it times 0.5 (roam) or 1 (chase); with none, the velocity is kept |
| Entities.Follow | scripts/entities.py:250-263 | the path changes exactly when its first waypoint lies in the enemy's rect; it then loses that waypoint; the tag never changes |
| Entities.FollowPopsAtMostOne | scripts/entities.py:262-263 | at most one waypoint is consumed per update, and never from an empty path |
| Entities.HealthTier | scripts/entities.py:265-278 | green above three quarters of full health, orange above half, yellow above a quarter, red otherwise (both directions) |
| Entities.DefaultHealthTiers | scripts/entities.py:271-278 | with the default four health points, each hit moves the bar down one colour |
| Entities.BarWidth | scripts/entities.py:265-268 | the bar's width is the image width times the health ratio, truncated, and never wider than the image |
| Entities.BarAfter | scripts/entities.py:265-278 | the bar is centred 12 above the enemy's rect before its width is set; the outline is centred on the resized bar; the colour is `HealthTier` |
| Entities.Enemy.constructor | scripts/entities.py:160-192 | a new enemy has 4 of 4 health points and no path; its bar lies 10 above its rect, as wide as the image, and the outline is the bar inflated by 3 |
| Entities.Enemy.Move | scripts/entities.py:210-213 | the entity update, then the position is clamped into `(0, 0)` to the size of `max_rect` |
| Entities.Enemy.PlanPath | scripts/entities.py:215-248 | the path becomes `Planned` of the old path at the enemy's position; health and health bar are unchanged |
| Entities.Enemy.FollowPath | scripts/entities.py:250-263 | the path is `Follow` of the old one, the velocity is `PursuitVelocity`, and the target position is the first waypoint when there is one |
| Entities.Enemy.Update | scripts/entities.py:207-278 | movement, planning, following and the health bar, in that order, each as the members above state; health is unchanged |
| Entities.Enemy.Collision | scripts/entities.py:285-286 | the enemy touches a rect exactly when the two share an integer point, and the answer is the same whichever of the two asks |
| Objects.NormalizeAngle | scripts/objects.py:73 | `(angle + 360) % 360` lies in `[0, 360)`, differs from the angle by a multiple of 360, and is the angle itself when the angle already lies there |
| Objects.PyRound | scripts/objects.py:78 | `round` returns the nearest integer, and the even one of two equally near |
| Objects.RoundedAngle | scripts/objects.py:78 | `round(angle / 3) * 3` is always a multiple of 3; `RoundedAngleIsNearestMultiple` shows it is the nearest one |
| Objects.RoundedAngleIsNearestMultiple | scripts/objects.py:78 | `round(angle / 3) * 3` is the multiple of 3 nearest the angle: within 1 degree of it, and equal to it exactly when the angle is a multiple of 3 |
| Objects.RoundedAngleInRange | scripts/objects.py:78 | the bucket of a normalized angle lies in `[0, 360]` |
| Objects.CacheStep | scripts/objects.py:78-93 | the image shown is the bucket's cache entry, rotated by minus the bucket; on a hit on `angle` the cache is unchanged; on a miss, the bucket's entry becomes a fresh image, flipped exactly when `90 <= angle <= 270` |
| Objects.CacheBounded | scripts/objects.py:80-93 | the cache never holds more than 121 images |
| Objects.CachedFlipDependsOnHistory | scripts/objects.py:80-93 | at angle 90 the image shown is flipped on a first visit, but not after a visit to 89, which filled the same bucket |
| Objects.CacheStepKeepsDrawn | scripts/objects.py:80-93 | every cached image is one that some angle of its bucket drew |
| Objects.CachedFlipAgreesAwayFromBoundaries | scripts/objects.py:80-93 | at every angle other than 90 and 270, the image shown is flipped exactly when `90 <= angle <= 270` |
| Objects.Gun.constructor | scripts/objects.py:56-65 | a new gun shows the base image, at angle 0, with an empty cache and its rect centred on `pos` |
| Objects.Gun.Update | scripts/objects.py:76-96 | the angle is normalized; image and cache are those of `CacheStep`; the rect's centre is set to `pos` at the old size, then the rect takes the image's size, keeping its top-left corner; the position stays |
| Objects.FlightFrom | scripts/objects.py:25-29 | one update moves the bullet by its velocity for `dt` and centres its rect on the truncated position |
| Objects.Bullet.constructor | scripts/objects.py:7-23 | a new bullet stands at `pos` with its angle, direction and speed, and its rect is centred on `pos` |
| Objects.Bullet.Hit | scripts/objects.py:34-35 | a bullet hits a rect exactly when the two share an integer point, and the answer is the same whichever of the two asks |
| Objects.Bullet.Update | scripts/objects.py:25-32 | the speed is `base_speed * dt`; the bullet moves as `FlightFrom` says; it reports that it left the screen exactly when the screen does not contain its rect |
| Objects.BulletTravelsItsSpeed | scripts/objects.py:26-28 | along a unit direction, a bullet travels exactly its speed per update |
| Objects.Pickup.constructor | scripts/objects.py:42-46 | a pickup's rect has its top-left corner at the truncated position |
| Objects.Pickup.Collision | scripts/objects.py:48-49 | a pickup touches a rect exactly when the two share an integer point, and the answer is the same whichever of the two asks |
| CameraView.Shifted | scripts/camera.py:14-15 | every position is moved back by the focus's velocity |
| CameraView.ShiftedKeepsDifferences | scripts/camera.py:13-17 | the offset keeps every difference, and so every distance, between two sprites |
| CameraView.ShiftedBack | scripts/camera.py:13-17 | an offset by `v` followed by one by `-v` restores every position |
| CameraView.Camera.constructor | scripts/camera.py:5-11 | the camera keeps its focus and the background position |
| CameraView.ShiftEntities | scripts/camera.py:14-15 | the loop over the player and the enemy moves each position back by `v`; its frame holds only their positions |
| CameraView.ShiftBullets | scripts/camera.py:14-15 | the loop over the bullets moves each position back by `v`; rects, velocities and speeds are outside its frame |
| CameraView.ShiftPickups | scripts/camera.py:14-15 | the loop over the pickups moves each position back by `v`; rects are fixed |
| CameraView.ShiftObjects | scripts/camera.py:14-15 | the rifle, every bullet and every pickup move back by `v`; only their positions are in its frame |
| CameraView.Camera.ApplyOffset | scripts/camera.py:13-19 | every sprite of the group (the player, the enemy, the rifle, the bullets and the pickups, passed one kind at a time) and the background move by minus the focus's velocity as it was on entry; only positions and the background are in its frame; the new background position is returned |
| Combat.Collected | scripts/game.py:222-226 | the pickups touching the player, in group order, are no more than those looked at |
| Combat.Uncollected | scripts/game.py:222-226 | the pickups not touching the player, in group order, are no more than those looked at |
| Combat.CollectedMembers | scripts/game.py:222-226 | a pickup is collected exactly when it is in the group and touches the player; it is kept exactly when it is in the group and does not |
| Combat.UncollectedDistinct | scripts/game.py:222-226 | the pickups left behind still hold no pickup twice |
| Combat.CollectedPartition | scripts/game.py:222-226 | every pickup is either collected or kept, and never both |
| Combat.AfterPickups | scripts/game.py:222-226 | part-way through the loop, the group is the kept pickups followed by those not yet handled; each collected one has given 12 rounds |
| Combat.AfterPickupsStep | scripts/game.py:222-226 | handling one pickup: a touching one leaves the group and gives 12 rounds; any other stays where it was |
| Combat.PickupApart | scripts/game.py:222-226 | in a group without duplicates, the pickup being handled is neither among those kept so far nor among those still to come |
| Combat.PickupsGiveRounds | scripts/game.py:222-226 | after the loop, the group holds exactly the pickups not touching the player, and the player has 12 more rounds for each pickup that left |
| Combat.StartsOf | scripts/game.py:238 | a snapshot of where every bullet of the group stands when the loop starts |
| Combat.FlightsFrom | scripts/game.py:238-242 | one flight per bullet of the group |
| Combat.FlightsFromAt | scripts/game.py:238-242 | the `j`-th flight is the `j`-th bullet's update from where it started |
| Combat.FlightsFromAll | scripts/game.py:238-242 | every flight is its bullet's update from where it started |
| Combat.Hits | scripts/game.py:242-244 | the number of handled bullets that hit the enemy is at most the number handled |
| Combat.HitsBounds | scripts/game.py:242-244 | no hits when no bullet reaches the enemy, one per bullet when all do, at least one when some does |
| Combat.HitsStep | scripts/game.py:242-244 | handling one more bullet adds one hit exactly when it overlaps the enemy |
| Combat.Unspent | scripts/game.py:238-245 | the handled bullets that stay are those that neither left the screen nor hit the enemy, in group order |
| Combat.UnspentStep | scripts/game.py:238-245 | handling one more bullet keeps it exactly when it is not spent |
| Combat.UnspentMembers | scripts/game.py:238-245 | the bullets that stay are bullets of the handled part of the group |
| Combat.UnspentExactly | scripts/game.py:238-245 | in a group without duplicates, a handled bullet stays exactly when its flight neither left the screen nor hit the enemy |
| Combat.UnspentDistinct | scripts/game.py:238-245 | the bullets that stay, followed by those not reached, hold no bullet twice |
| Combat.UnspentKeepsDistinct | scripts/game.py:238-245 | the bullets that stay hold no bullet twice |
| Combat.AfterBullets | scripts/game.py:238-245 | part-way through the loop, the enemy has lost one point per hit; it is gone, and a respawn is pending, exactly when its health reached zero |
| Combat.Arena.constructor | scripts/game.py:78-107 | the first enemy has 4 health points at `enemyPos` on the player's grid; both groups are empty; `all_sprites` is the player, the rifle and the enemy; every timer starts at `now` |
| Combat.Arena.Shoot | scripts/game.py:139-155 | a shot fires exactly when 170 ms have passed since the last one; it then costs one round, appends exactly one new bullet at the player's position with the rifle's angle and speed 25, and restarts the cooldown; otherwise nothing changes |
| Combat.Arena.SpawnAmmo | scripts/game.py:157-172 | with fewer than four pickups, exactly one new pickup is appended at `pos`; with four, the group is unchanged |
| Combat.Arena.SpawnEnemy | scripts/game.py:174-194 | a fresh enemy with full health (4 of 4) stands at `pos` on the respawn grid, and the respawn flag is cleared |
| Combat.Arena.ManageHit | scripts/game.py:196-204 | the enemy loses exactly one point; on reaching zero, the kill is counted once, the enemy slot empties, a respawn is pending and its timer starts at `now`; otherwise the enemy, kills and timer are unchanged; the enemy's path is untouched |
| Combat.Arena.Kill | scripts/game.py:245 | `bullet.kill()` takes the bullet out of the group and keeps the others in order |
| Combat.Arena.Pick | scripts/game.py:224-226 | a touched pickup leaves the group, the others stay in order, and the player gains 12 rounds |
| Combat.Arena.Sort | scripts/game.py:222-226 | one pass of the pickup loop moves the state from `AfterPickups` of `i` pickups to `AfterPickups` of `i + 1` |
| Combat.Arena.Gather | scripts/game.py:222-229 | the pickup loop ends in the state `AfterPickups` gives for every pickup of the snapshot |
| Combat.Arena.CollectPickups | scripts/game.py:222-229 | the group becomes the untouched pickups, and the player gains 12 rounds per touched pickup |
| Combat.Arena.Strike | scripts/game.py:242-245 | the bullet moves; it leaves the group exactly when it left the screen or hit the enemy; a hit costs the enemy one point; the enemy is gone exactly when this hit took its last point |
| Combat.Arena.Advance | scripts/game.py:238-245 | one pass of the bullet loop moves the state from `AfterBullets` of `i` bullets to `AfterBullets` of `i + 1`, and leaves pickups, timers, ammunition and flags alone |
| Combat.Arena.Volley | scripts/game.py:238-245 | the loop handles bullets in group order and stops early only once the enemy is gone; the state is `AfterBullets` of the bullets handled |
| Combat.Arena.Engage | scripts/game.py:238-245 | with an enemy present, the loop ends as `AfterBullets` says; the enemy's health never drops below zero; reaching zero happens only on the last bullet handled, which hit |
| Combat.Arena.ResolveBullets | scripts/game.py:238-245 | with no enemy, the loop stops at once and changes nothing; otherwise it ends as `Engage` says |
| Combat.Arena.AmmoTimer | scripts/game.py:218-220 | once the interval has passed, a pickup is spawned when fewer than four lie about, and the timer restarts at `now` |
| Combat.Arena.Trigger | scripts/game.py:231-236 | a bullet leaves exactly when the button is pressed, a round is left and the cooldown has passed; it is new, appended to the group, starts at the player's position in a bullet-sized rect centred there, and flies along the direction at the bullet speed; with no rounds nothing changes |
| Combat.Arena.Respawn | scripts/game.py:247-251 | while a respawn is pending and the drawn delay has passed, a fresh enemy at full health appears; otherwise the enemy slot is unchanged |
| Combat.Arena.Resupply | scripts/game.py:218-236 | a pickup at `ammoPos` is offered exactly when the interval has passed and fewer than four lie about; the pickup timer becomes `now` whenever the interval has passed; those touching the player are gone and gave 12 rounds each; a shot leaves exactly when the button is pressed, 170 ms have passed since the last one and a round is left after the pickups, and then costs one round, appends one new bullet at the player's position flying along the direction, and sets the shot timer to `now`; without a shot the shot timer and the bullets are unchanged |
| Combat.Arena.Fight | scripts/game.py:238-251 | `flights` are where one update takes each old bullet, and the loop handles the first `processed` of them, stopping early only once the enemy is gone; the enemy present loses one health point per handled flight ending on its rect, and it keeps its slot unless that leaves it none; a kill is counted and the respawn timer set to `now` exactly then; a new, still enemy with no path appears exactly when none was present and the drawn delay has passed; the pickups, the player's rounds, the other two timers and the enemy's path are unchanged |
| Combat.Arena.Skirmish | scripts/game.py:218-251 | `Resupply` then `Fight`: the pickup rule and pickup timer, the fire rule and shot timer, the flights of the old bullets and of the one just fired, the enemy's health loss of one point per handled flight ending on it and its slot kept unless that took its last point, the kill count, the respawn timer and the respawn rule, all stated against the state before the tick |
| Combat.Arena.Walk | scripts/game.py:253-256 | the player's animation ticks and the rifle turns to the normalized aim; ammunition, kills and flip are unchanged |
| Combat.Arena.Pursue | scripts/game.py:258-259 | the enemy's path is `Follow` of `Planned` toward the player's position; its health is unchanged |
| Combat.Arena.Maneuver | scripts/game.py:253-264 | the rifle turns to the aim; the player's animation ticks and then switches to "running" or "idle" as it moved; the enemy's path is `Follow` of `Planned` with the given chase distance from the path it had; the enemy's health, the player's ammunition, kills and flip are unchanged |
| Combat.Arena.Round | scripts/game.py:218-264 | one tick after the collision check, against the state before it: the pickup rule at `ammoPos` and the pickup timer, the rounds gained and spent, the fire rule and the shot timer, the bullets' flights and the enemy's loss of one health point per handled flight ending on it (it keeps its slot unless none is left), the kill count and the respawn timer, the respawn rule, the rifle's angle, and the enemy's new path planned with the given chase distance from its old path (or from none, for a new enemy) |
| Combat.Arena.Face | scripts/game.py:266-269 | `set_flipped` sets the flag and nothing else |
| Combat.Assemble | scripts/game.py:62-99 | the player stands at the centre in state "idle" with 24 rounds; the rifle stands at the centre of the player's rect; the first enemy is at `enemyPos`; every timer starts at `now` |
| Combat.SpriteSetAddBullet | scripts/game.py:150-151 | adding a bullet to both groups adds exactly that sprite to `all_sprites` |
| Combat.SpriteSetAddPickup | scripts/game.py:171-172 | adding a pickup to both groups adds exactly that sprite to `all_sprites` |
| Combat.SpriteSetRemoveBullet | scripts/game.py:245 | `bullet.kill()` takes exactly that sprite out of `all_sprites` |
| Combat.SpriteSetRemovePickup | scripts/game.py:224-225 | removing a pickup from both groups takes exactly that sprite out of `all_sprites` |
| Combat.SpriteSetRemoveEnemy | scripts/game.py:200 | `enemy.kill()` takes exactly the enemy out of `all_sprites` |
| Combat.SpriteSetAddEnemy | scripts/game.py:193 | `enemy.add(all_sprites)` adds exactly the enemy |
| GameScript.FacesLeft | scripts/game.py:266-269 | the rifle's normalized angle lies in `[90, 270]` exactly when the aim points into the left half-plane |
| GameScript.Game.constructor | scripts/game.py:17-116 | the player stands in the middle of the screen with speed 6, frame delay 250 and 24 rounds; the first enemy has speed 5 and 4 health points; pickups are 60 x 54; the timers start at `now` |
| GameScript.Game.Reset | scripts/game.py:118-137 | both groups are emptied; the player is back in the middle with 24 rounds, no kills and facing right; a fresh enemy is the only other sprite besides the player and the rifle; the timers keep running |
| GameScript.Game.Play | scripts/game.py:218-269 | `Round` with the constants of this revision: a pickup is offered exactly when 6700 ms have passed since the last attempt and fewer than four lie about, the enemy plans with a chase distance of 425, and both appear in the stated pickup timer and path; the bullets' flights and the enemy's health loss and slot are as `Round` states; the player's image is flipped exactly when the aim points left |
| GameScript.Game.Update | scripts/game.py:206-271 | within 250 ms of the start delay nothing but `dt` changes and the game goes on; an enemy touching the player ends the game before anything changes; otherwise the tick plays out as `Play` says, with the 6700 ms pickup interval, the fire rule, the three timers, the bullets' flights, the enemy's health loss of one point per handled flight ending on it, its slot kept unless none is left, and the enemy's path planned with a chase distance of 425, and the game goes on |
| MainScript.RespawnGrid | main.py:105-106 | respawned enemies use tiles one pixel larger than the player's grid |
| MainScript.Main.constructor | main.py:17-116 | a 1280 x 720 window and background; the player in its middle with 24 rounds; the first enemy with speed 4.7; the camera on the player; pickups 60 x 60; `dt` is 0.017 |
| MainScript.Main.MainGame | main.py:188-244 | an enemy touching the player clears `running`, and the tick still plays out as `Round` says with this revision's constants: a pickup exactly when 6000 ms have passed and fewer than four lie about, 12 rounds each, the 170 ms fire rule with the shot timer, the bullets' flights, one health point lost by the enemy per handled flight ending on it with its slot kept unless none is left, one kill and a respawn timer at `now` exactly when none is left, a respawn once the delay drawn from `[200, 4000]` has passed, and the enemy's path planned with a chase distance of 350; the player's image is never flipped |

## Left out

- Rendering, fonts, the text overlays, audio and image loading are not
  modelled. Image sizes are parameters.
- Entities.Entity.Clamp and Entities.Player.Update take every frame of every
  animation of an entity to share one size, the entity's `width` and
  `height`. The source's `clamp` reads the size of the frame shown at the
  time, so when the player's idle and running images differ in size, the
  source clamps to bounds that differ by those sizes.
- The `main()` coroutine of main.py is not modelled: the event loop, the
  `dt` update from the clock and `pg.quit()`. `MainGame` is one call of
  `main_game`.
- `Camera.apply_offset` is modelled (`ApplyOffset`), but main.py never calls
  it: the call is commented out. The model's sprite group is passed as four
  parts (entities, rifle, bullets, pickups), because the source's group
  mixes sprite classes; the order in which pygame visits the sprites does
  not matter, as each moves on its own. So no tick in `MainGame` moves the camera,
  and the background position stays at the origin.
- `get_random_position` is not part of this model.
  `scripts/utilities.py` does not define it, and that file holds unresolved
  merge-conflict markers. Every position it would return is a parameter.
  Its minimum-distance arguments (325, 120 and 10) are not modelled.
- `Player.set_flipped` is called by scripts/game.py but not defined in
  scripts/entities.py. It is modelled as a flag on the player.
- `pg.time.get_ticks()` is read several times in a tick in the source. The
  model reads one `now` per tick.
- `Gun.get_angle` is the parameter `aim`, the rounded degrees of `atan2`,
  which lies in `[-180, 180]`. Only the normalization at
  scripts/objects.py:73 is modelled.
- `normalize()` is a parameter: a vector that the callers' `requires`
  (`IsUnitAlong`) make a unit vector along the velocity. The direction
  `Vector2(1, 0).rotate(angle)` that a bullet is given is a parameter that
  the model does not constrain, neither to unit length nor to the bullet's
  angle; `BulletTravelsItsSpeed` states what follows when it has unit
  length. Square roots and trigonometry are not modelled. Rotating the
  bullet and gun images changes only their sizes, which are parameters.
- Enemy path searches (`Navigation.Grid.FindPath`, and through it
  `Entities.Enemy.PlanPath`, `Entities.Enemy.Update` and
  `Combat.Arena.Pursue`) ask about the corrected endpoints of
  `Navigation.Grid.Endpoint`, not the as-written ones of
  scripts/entities.py:194-202 (see Findings). The two agree on a square
  grid for non-negative positions (`Navigation.AsWrittenAgreesOnSquareGrid`),
  which covers the shipped 40 x 40 grid.
- The A* search of the `pathfinding` library is a parameter, a function
  from two cells to a path. Its optimality and diagonal movement are not
  modelled.
- The dictionary of player animations is taken to list "idle" first, as
  both constructors write it. `Entity.__init__` starts on the first key.
- Rect coordinates assigned from floats are truncated toward zero (`ToInt`).
- Combat.Arena.Fight, Combat.Arena.Skirmish, Combat.Arena.Round,
  GameScript.Game.Play, GameScript.Game.Update and MainScript.Main.MainGame
  state each bullet's flight and the enemy's health, but not which bullets
  are left in the group after the loop. `Combat.Arena.ResolveBullets`
  states that, and the tick methods call it.
- Combat.Arena.Walk, Combat.Arena.Maneuver and Combat.Arena.Round state the
  rifle's angle and the player's animation, but not the new positions and
  velocities of the player and the enemy. `Entities.Player.Update` and
  `Entities.Enemy.Update` state those.
- Combat.Arena.Pursue states the enemy's new path and health but not its
  movement. `Entities.Enemy.Update` states the movement.
- GameScript.Game.Reset leaves the player's rect where it was. The source
  moves only the position; the rect follows on the next update.
- main.py stores `tile_x + 1` and `tile_y + 1` after building the first
  enemy, so only respawned enemies use the larger tiles. scripts/game.py
  passes 250 as the player's frame delay, against the default of 0.2. The
  gun cache looks up `angle` but reads and writes `rounded_angle`. All
  three are modelled as written.

## Findings

| source | as written | input that shows it | evidently intended | confidence | as-written member | corrected member |
|---|---|---|---|---|---|---|
| scripts/entities.py:194-202 | `find_path` caps the column index at `rows - 1` and the row index at `cols - 1`; neither index is clamped at 0 | a grid with more rows than columns (say 40 rows, 20 columns), and an enemy or target at a column at or past the last one | cap the column at `cols - 1` and the row at `rows - 1`, and clamp both at 0, so the node always exists | not executed; the shipped call `Main(matrix, 32, 18, 40, 40)` uses a square grid, where the as-written node is the corrected one for non-negative positions | Navigation.Grid.EndpointAsWritten, Navigation.AsWrittenLeavesGrid | Navigation.Grid.Endpoint (used by Navigation.Grid.FindPath), Navigation.AsWrittenAgreesOnSquareGrid |
