# Portfolio mini-game, modelled in Dafny

This project models the small platformer in the portfolio page's
`main.js` (lines 399-567). A character moves left and right with the
arrow keys and jumps with Space, and it collects coins by touching them.
Each coin is worth 10 points, and every 30 points the level goes up and
the character becomes one pixel per tick faster. The model covers the
game's variables, the two key listeners, `startGame`, one call of
`gameLoop`, `jump` with its rise interval, `fall` with its fall interval,
`collectCoin`, `levelUp` and `isColliding`.

The project has five modules:

- `Geometry` (geometry.dfy): integer screen rectangles and the
  separating-axis overlap test `isColliding`.
- `GameRules` (rules.dfy): the whole game state as a value (`World`), with
  one function per event: key down/up, start, one tick (guarded movement,
  the jump trigger, the coin sweep), one firing of the rise interval, one
  firing of the fall interval, collecting a coin and levelling up. The
  scheduled jump interval is explicit: `Timer = Idle | Rising(jumpHeight) |
  Falling`. `jump()` is guarded by `isJumping`, and only the last fall
  firing clears that flag, so at most one interval exists at any time.
- `GameInvariant` (invariant.dfy): the invariant `Inv`, proved to be kept
  by every event. It says:
  - the score is 10 per collected coin;
  - `level == 1 + score / 30` and `speed == 4 + level`;
  - `-speed < x < width + speed`;
  - `isJumping` holds exactly when an interval is scheduled;
  - while rising, `y - rest == jumpHeight`;
  - while falling, `y >= rest + 100`;
  - before the game has started, Space is not held and no jump is
    scheduled.
- `JumpPhysics` (physics.dfy) and `Movement` (movement.dfy): what several
  interval firings or ticks do together. This covers the whole jump cycle,
  the peak height, walking right up to the edge, and overshooting it.
- `GameSession` (session.dfy): class `Game` holds the game's variables as
  fields and changes them in place. Each method is proved to perform the
  `GameRules` step on `State()`, and the event handlers keep `Valid()`
  (that is, `Inv`).

Things the source decides that a reader might not expect. The model
follows the code on each:

- The fall interval tests `y > rest` and snaps `y` to rest on its first
  firing (main.js:507-511). The jump therefore has no gradual descent. A
  whole jump is `RiseMoves` rise firings, then one hand-over firing, then
  one fall firing. With the page's jump force of 15 the character rises
  seven times to 105 above rest, and the whole jump takes nine firings. A
  symmetric fall of as many firings as the rise is not what the code does.
- The left and right steps are guarded, not clamped (main.js:456-463). The
  position can end one `speed` step beyond either edge: from 797 at speed 5
  in an 800-pixel viewport, one step lands on 802. It stays within
  `(-speed, width + speed)`.
- A Space press before the game has started calls `startGame`, which runs
  one tick at once, before that press reaches the key map
  (main.js:426-430). That first tick therefore never starts a jump
  (`GameInvariant.FirstSpaceNoJump`).

The viewport width, the resting height `innerHeight - 100` and the layout's
bounding boxes (the character's box and one box per coin) are parameters
of the model.

## Model

| member | source | states |
|---|---|---|
| `Geometry.IsCollidingSymmetric` | main.js:562-567 | the overlap test gives the same answer with its arguments swapped |
| `Geometry.EdgeTouchCollides` | main.js:562-567 | well-formed boxes whose right and left edges coincide with overlapping vertical extents, or whose bottom and top edges coincide with overlapping horizontal extents (corners included), count as colliding |
| `Geometry.CollidingIffSharedPoint` | main.js:562-567 | for well-formed boxes the test holds exactly when some integer point lies in both boxes (both directions) |
| `GameRules.SetKey` | main.js:429-430 | a recognized code sets exactly its own key to the given value; every other key keeps its state; an unrecognized code changes nothing |
| `GameRules.KeyDown` | main.js:425-435 | afterwards the game is started iff it was already started or the code is Space; a recognized key is held, the others keep their state; apart from the first Space press the handler only changes the key map; the first Space press gives exactly the `StartGame` state with Space then marked held |
| `GameRules.KeyUp` | main.js:437-444 | a recognized key is released, the others keep their state, and nothing but the key map changes |
| `GameRules.StartGame` | main.js:446-450 | the game is started, the key map is untouched, and the first tick runs at once: `x` takes the guarded movement step for the keys held, `y` is unchanged, the jump flag and a rise interval from height 0 are set exactly when Space was already held and no jump was under way, and every coin whose box collides with the character's is collected |
| `GameRules.CheckCoin` | main.js:474-480 | the coin's flag becomes "collected or colliding"; a coin already collected leaves the whole state unchanged |
| `GameRules.SweepTo` | main.js:473-482 | after the sweep, coin j is collected iff it was before or its box collides with the character's; position, keys, jump state and started flag are unchanged |
| `GameRules.Tick` | main.js:452-485 | before the game is started a tick changes nothing; otherwise it changes `x` by the movement step only, leaves `y`, the keys and the started flag alone, sets `isJumping` exactly when it was set or Space is held, schedules the rise interval from height 0 exactly when Space is held and no jump was under way, and collects exactly the uncollected coins that collide |
| `GameRules.Initial` | main.js:399-423 | the page-load state: score 0, level 1, not started, speed 5, jump force 15, `x` within the viewport, at rest, not jumping, no key held, no coin collected (its invariant: `GameInvariant.InitialInv`) |
| `GameRules.Steer` | main.js:456-463 | only `x` changes, and by `-speed`, 0 or `+speed` in one tick (guards: `Movement.SteerGuards`) |
| `GameRules.JumpIfHeld` | main.js:464-466 | afterwards `isJumping` holds iff it held or Space is held; the rise interval from height 0 is scheduled exactly when Space is held and no jump was under way; nothing else changes (see also `JumpPhysics.JumpGuard`) |
| `GameRules.Jump` | main.js:487-493 | afterwards the character is jumping; a call while jumping changes nothing; a fresh call schedules the rise interval from height 0; only the jump flag and the interval change |
| `GameRules.RiseStep` | main.js:494-502 | the firing hands over to the fall interval exactly when `jumpHeight >= 100`, without moving; otherwise `y` and `jumpHeight` both grow by exactly `jumpForce`; nothing else changes (over several firings: `JumpPhysics.RisePhase`) |
| `GameRules.FallStep` | main.js:506-515 | the interval stops exactly when `y > rest`, and then `y` is at rest and the jump is over; otherwise `y` drops by `jumpForce` and the interval stays; nothing else changes (under the invariant: `JumpPhysics.FirstFallLands`) |
| `GameRules.Fire` | main.js:494-515 | with no interval scheduled nothing happens; a firing changes only `y`, the jump flag and the interval (invariant: `GameInvariant.FireInv`) |
| `GameRules.CollectCoin` | main.js:518-525 | the coin is marked, the score grows by exactly 10, and level and speed both grow by one exactly when the new score is a multiple of 30; nothing else changes (invariant: `GameInvariant.CollectInv`) |
| `GameRules.LevelUp` | main.js:531-534 | level and speed each grow by exactly one and nothing else changes |
| `GameRules.Count` | main.js:474 | the number of collected coins is at most the number of coins |
| `GameInvariant.CountCollect` | main.js:519 | collecting a coin that is not yet collected adds exactly one to the number of collected coins |
| `GameInvariant.LevelStep` | main.js:520-525 | with a score of 10n, the level-up test on the next coin fires exactly when score / 30 grows by one |
| `GameInvariant.InitialInv` | main.js:399-423 | the state at page load (score 0, level 1, speed 5, jump force 15, at rest, no coin collected) satisfies the invariant |
| `GameInvariant.CollectInv` | main.js:518-534 | collecting an uncollected coin keeps score = 10 per collected coin, level = 1 + score / 30 and speed = 4 + level |
| `GameInvariant.SweepInv` | main.js:473-482 | a coin sweep of any length keeps the invariant |
| `GameInvariant.TickInv` | main.js:452-485 | one game-loop tick keeps the invariant |
| `GameInvariant.KeyDownInv` | main.js:425-450 | the keydown handler, including the start-up tick, keeps the invariant |
| `GameInvariant.KeyUpInv` | main.js:437-444 | the keyup handler keeps the invariant |
| `GameInvariant.FireInv` | main.js:494-516 | a rise or fall firing keeps the invariant, including `y - rest == jumpHeight` while rising |
| `GameInvariant.FirstSpaceNoJump` | main.js:425-430 | from any reachable state before the start, the Space press that starts the game leaves it running with Space held and no jump under way, while its tick still moves `x` by the guarded step and collects every colliding coin |
| `GameInvariant.ScoreBounds` | main.js:518-534 | under the invariant the score is a non-negative multiple of 10, at most 10 per coin, with level = 1 + score / 30 and speed = 4 + level |
| `GameInvariant.SweepScore` | main.js:473-482 | a sweep raises the score by exactly 10 per coin it newly collects |
| `GameInvariant.ThreeCoinsLevelUp` | main.js:518-534 | collecting three coins from the start gives score 30, level 2 and speed 6: exactly one level-up |
| `JumpPhysics.JumpGuard` | main.js:464-490 | `jump` is a no-op while jumping and idempotent; the jump trigger of a tick (`JumpIfHeld`) changes the state exactly when Space is held and the character is not jumping, and the jump then begins rising from height 0 |
| `JumpPhysics.RiseMoves` | main.js:494-501 | the number of moving rise firings is zero exactly when the height is already at or past 100 |
| `JumpPhysics.Peak` | main.js:494-501 | from below the cap, the hand-over height lies in [100, 100 + jumpForce), and it equals the start height plus one jumpForce per moving firing |
| `JumpPhysics.RisePhase` | main.js:493-501 | from any rise interval, RiseMoves + 1 firings raise `y` by exactly the height gained up to the peak and schedule the fall interval; the jump flag holds throughout |
| `JumpPhysics.JumpCycle` | main.js:487-516 | jumping from rest and firing RiseMoves(0, f) + 2 intervals restores exactly the state before the jump; `isJumping` is true at every firing before the last |
| `JumpPhysics.FirstFallLands` | main.js:505-516 | under the invariant the first fall firing puts `y` at rest, clears `isJumping` and stops the interval |
| `JumpPhysics.DefaultJump` | main.js:407-501 | with jump force 15 a jump rises seven times to 105 above rest and takes nine firings in all |
| `JumpPhysics.EvenJump` | main.js:494-516 | with jump force 20 a jump rises five times to exactly 100 and takes seven firings in all |
| `Movement.SteerGuards` | main.js:456-463 | with only the left key held and `x > 0`, `x` goes down by exactly `speed`; with only the right key held and `x < width`, up by exactly `speed`; with both held, `x` ends where it started when both guards pass, goes down by `speed` when only the left guard passes, up by `speed` when only the right guard passes, and stays when neither passes; `x` only decreases through such a left step and only increases through such a right step, never moves further left once `x <= 0` nor further right once `x >= width`, and nothing but `x` changes |
| `Movement.RightHeldAdvances` | main.js:460-463 | with only the right key held, n movement steps (the movement part of n ticks, at a fixed speed) add exactly n * speed while every position before a step is below the width, and change nothing else |
| `Movement.RightHeldStops` | main.js:460-463 | with only the right key held, once `x >= width` further movement steps change nothing |
| `Movement.RightHeldScenario` | main.js:456-463 | from 400 in an 800-pixel viewport at speed 5, 20 movement steps holding the right key reach 500, 80 reach 800, and further steps stay at 800 |
| `Movement.RightOvershoots` | main.js:460-463 | the guard is not a clamp: from 797 at speed 5 one step lands on 802 |
| `GameSession.Game.constructor` | main.js:399-423 | the new game is the page-load state for the given viewport and number of coins, and satisfies the invariant |
| `GameSession.Game.SetKey` | main.js:429-430 | the key map is updated as `GameRules.SetKey` says, and nothing else changes |
| `GameSession.Game.KeyDown` | main.js:425-435 | the object's new state is `GameRules.KeyDown` of the old one, and the invariant is kept |
| `GameSession.Game.KeyUp` | main.js:437-444 | the new state is `GameRules.KeyUp` of the old one, and the invariant is kept |
| `GameSession.Game.StartGame` | main.js:446-450 | the new state is `GameRules.StartGame` of the old one, and the invariant is kept |
| `GameSession.Game.Tick` | main.js:452-485 | the new state is `GameRules.Tick` of the old one, and the invariant is kept |
| `GameSession.Game.Steer` | main.js:456-463 | the new state is the guarded movement step `GameRules.Steer` of the old one, and the invariant is kept |
| `GameSession.Game.Sweep` | main.js:473-482 | the loop over the coins produces `GameRules.SweepTo` over all coins, and the invariant is kept |
| `GameSession.Game.Jump` | main.js:487-493 | the new state is `GameRules.Jump` of the old one, and the invariant is kept once the game has started |
| `GameSession.Game.RiseStep` | main.js:494-502 | the new state is one rise firing of the old one, and the invariant is kept |
| `GameSession.Game.FallStep` | main.js:506-515 | the new state is one fall firing of the old one, and the invariant is kept if it held before |
| `GameSession.Game.CollectCoin` | main.js:518-525 | the new state has the coin marked, the score 10 higher and a level-up when the new score is a multiple of 30; the invariant is kept when the coin was not yet collected |
| `GameSession.Game.LevelUp` | main.js:531-534 | level and speed each go up by one, and nothing else changes |
| `GameSession.PlayOneJump` | main.js:425-516 | driving a fresh game through its methods (Space, a tick, seven rises) reaches 105 above rest; a second Space press in the air and the tick after it leave the height at that peak and the rise interval at height 105; the hand-over and one fall firing land the character at rest with `isJumping` false |

## Left out

- Presentation writes are not modelled: the sprite's `running` and `jumping` classes, the `transform`, `left` and `bottom` styles, the score and level text, and hiding the start text. They are display output only.
- The particle burst (`createParticles`) and the LEVEL UP banner, with their `setTimeout` removal, are not modelled. They are display output only.
- Scheduling is not modelled: `requestAnimationFrame`, `setInterval` and `clearInterval`, and how ticks and interval firings interleave. Each tick and each firing is an explicit call, in any order the caller chooses. Each firing is taken to be possible only while its interval is scheduled.
- The layout queries (`getBoundingClientRect`) are not modelled. The character's box and the coins' boxes are parameters of a tick, in integer pixels, and nothing ties the character's box to `x` and `y`.
- Viewport resizing is not modelled: the width and `innerHeight - 100` are fixed when the game is created. The source reads them again on every tick and fall firing.
- The start position `innerWidth / 2` is taken in whole pixels (integer division). Positions are integers, not floating point.
- `GameSession.Game.FallStep`: it preserves the invariant only if it held before. Without the invariant, the branch that moves the character down is reachable; under the invariant it never is.
- `GameSession.Game.Jump`: it keeps the invariant only once the game has started. The page only calls `jump()` from the running game loop; before the start, the invariant says no jump is scheduled.
- `Movement.RightHeldAdvances`, `Movement.RightHeldStops` and `Movement.RightHeldScenario`: they are about the movement part of a tick at a fixed speed. A whole tick also runs the coin sweep, which may collect a coin and raise the speed.
- The game's page elements are assumed present. If one is missing, the page throws part-way through a handler, and the model does not capture that:
  - without the start text (`.pixel-text`), `startGame` throws after setting `isGameStarted` (main.js:447-448), so the loop never starts and that Space press never reaches the key map;
  - without the sprite, `jump` throws after setting `isJumping` (main.js:490-491), so no rise interval is scheduled and the character stays "jumping" for good; the sprite is looked up once at load, so no fall interval ever runs without it and the sprite access in the fall firing (main.js:510) cannot fail;
  - without the score or level text, `collectCoin` and `levelUp` throw after updating the score or the level (main.js:520-521, 532-533).
- `GameSession.Game.CollectCoin` and `GameSession.Game.LevelUp`: they do not promise the invariant in general. The page only calls `collectCoin` on a coin not yet collected, and only calls `levelUp` from `collectCoin`.
- The rest of main.js is not part of this model: the parallax, the cursor follower, device detection, navigation, the menu, smooth scrolling, the contact form, lazy loading, fade-ins, falling pixels, stat counters, card tilt and the card stagger.
