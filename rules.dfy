/** The mini-game's state and every step that changes it, as functions on
    values. Each function is one event of the game: a key press or release,
    one game-loop tick, one firing of the rise or fall interval, collecting a
    coin, levelling up. The class in module GameSession performs the same
    steps in place and is proved against these functions. */
module GameRules {
  import opened Geometry

  const ScorePerCoin: int := 10
  const LevelEvery: int := 30
  const RiseCap: int := 100
  const InitialSpeed: int := 5
  const InitialJumpForce: int := 15

  const ArrowLeft: string := "ArrowLeft"
  const ArrowRight: string := "ArrowRight"
  const Space: string := "Space"

  /** The viewport, fixed for the page's lifetime: its width bounds the
      horizontal guards, `rest` is the resting height (innerHeight - 100). */
  datatype Config = Config(width: int, rest: int)

  /** The three logical keys of the input tracker. */
  datatype Keys = Keys(left: bool, right: bool, space: bool)

  /** The interval that is currently scheduled for the jump, if any:
      the rise interval carries its closure's `jumpHeight`. */
  datatype Timer = Idle | Rising(jumpHeight: int) | Falling

  /** Everything the game mutates: score, level, the started flag, the
      character record, the key map, the pending interval and the coins'
      collected flags (one per coin, in document order). */
  datatype World = World(
    score: int,
    level: int,
    started: bool,
    x: int,
    y: int,
    speed: int,
    jumpForce: int,
    isJumping: bool,
    keys: Keys,
    timer: Timer,
    collected: seq<bool>)

  /** The state at page load, with `coins` collectibles on the page. */
  function Initial(c: Config, coins: nat): (w: World)
    ensures w.score == 0 && w.level == 1 && !w.started
    ensures w.speed == InitialSpeed && w.jumpForce == InitialJumpForce
    ensures 0 <= c.width ==> 0 <= w.x <= c.width
    ensures w.y == c.rest && !w.isJumping && w.timer == Idle
    ensures !w.keys.left && !w.keys.right && !w.keys.space
    ensures |w.collected| == coins && forall j :: 0 <= j < coins ==> !w.collected[j]
  {
    World(0, 1, false, c.width / 2, c.rest, InitialSpeed, InitialJumpForce, false,
          Keys(false, false, false), Idle, seq(coins, _ => false))
  }

  // ---------------------------------------------------------------------
  // Input tracker

  predicate Recognized(code: string) {
    code == ArrowLeft || code == ArrowRight || code == Space
  }

  /** Whether the logical key named by a recognized code is held. */
  predicate Held(k: Keys, code: string) {
    if code == ArrowLeft then k.left
    else if code == ArrowRight then k.right
    else if code == Space then k.space
    else false
  }

  /** `keys[code] = v` for a recognized code; other codes are ignored. */
  function SetKey(k: Keys, code: string, v: bool): (r: Keys)
    ensures Recognized(code) ==> Held(r, code) == v
    ensures forall other :: other != code ==> Held(r, other) == Held(k, other)
    ensures !Recognized(code) ==> r == k
  {
    if code == ArrowLeft then k.(left := v)
    else if code == ArrowRight then k.(right := v)
    else if code == Space then k.(space := v)
    else k
  }

  /** The keydown handler. A Space press before the game has started runs
      `startGame`, which performs one tick at once, before the key map is
      updated; then a recognized key is recorded as held. */
  function KeyDown(c: Config, w: World, code: string, ch: Rect, boxes: seq<Rect>): (r: World)
    requires |boxes| == |w.collected|
    ensures r.started == (w.started || code == Space)
    ensures Recognized(code) ==> Held(r.keys, code)
    ensures forall other :: other != code ==> Held(r.keys, other) == Held(w.keys, other)
    ensures w.started || code != Space ==> r == w.(keys := SetKey(w.keys, code, true))
    ensures code == Space && !w.started ==>
              r == StartGame(c, w, ch, boxes).(keys := w.keys.(space := true))
  {
    var w1 := if code == Space && !w.started then StartGame(c, w, ch, boxes) else w;
    w1.(keys := SetKey(w1.keys, code, true))
  }

  /** The keyup handler: a recognized key is recorded as released. */
  function KeyUp(w: World, code: string): (r: World)
    ensures Recognized(code) ==> !Held(r.keys, code)
    ensures forall other :: other != code ==> Held(r.keys, other) == Held(w.keys, other)
    ensures r.(keys := w.keys) == w
  {
    w.(keys := SetKey(w.keys, code, false))
  }

  /** `startGame`: mark the game started and run the first tick. */
  function StartGame(c: Config, w: World, ch: Rect, boxes: seq<Rect>): (r: World)
    requires |boxes| == |w.collected|
    ensures r.started && r.keys == w.keys
    ensures r.x == Steer(c, w).x && r.y == w.y
    ensures r.isJumping == (w.isJumping || w.keys.space)
    ensures r.timer == if w.keys.space && !w.isJumping then Rising(0) else w.timer
    ensures |r.collected| == |w.collected|
    ensures forall j :: 0 <= j < |w.collected| ==>
              r.collected[j] == (w.collected[j] || IsColliding(boxes[j], ch))
  {
    Tick(c, w.(started := true), ch, boxes)
  }

  // ---------------------------------------------------------------------
  // One game-loop tick

  /** The movement part of a tick: a guarded step left, then a guarded step
      right, each of exactly `speed` pixels. The guards are tested against
      the position at the moment of the test, so both can fire in one tick. */
  function Steer(c: Config, w: World): (r: World)
    ensures r.(x := w.x) == w
    ensures r.x - w.x in {-w.speed, 0, w.speed}
  {
    var x1 := if w.keys.left && w.x > 0 then w.x - w.speed else w.x;
    var x2 := if w.keys.right && x1 < c.width then x1 + w.speed else x1;
    w.(x := x2)
  }

  /** The jump trigger of a tick: `jump()` when Space is held and the
      character is not already jumping. */
  function JumpIfHeld(w: World): (r: World)
    ensures r.isJumping == (w.isJumping || w.keys.space)
    ensures r.timer == if w.keys.space && !w.isJumping then Rising(0) else w.timer
    ensures r.(isJumping := w.isJumping, timer := w.timer) == w
  {
    if w.keys.space && !w.isJumping then Jump(w) else w
  }

  /** The collision test of one coin inside the sweep: a coin already
      collected is skipped; otherwise it is collected when its box and the
      character's box collide. */
  function CheckCoin(w: World, ch: Rect, box: Rect, i: nat): (r: World)
    requires i < |w.collected|
    ensures r.collected == w.collected[i := w.collected[i] || IsColliding(box, ch)]
    ensures w.collected[i] ==> r == w
  {
    if !w.collected[i] && IsColliding(box, ch) then CollectCoin(w, i) else w
  }

  /** The sweep over the first `n` coins, in order. */
  function SweepTo(w: World, ch: Rect, boxes: seq<Rect>, n: nat): (r: World)
    requires n <= |boxes| == |w.collected|
    ensures |r.collected| == |w.collected|
    ensures forall j :: 0 <= j < |w.collected| ==>
              r.collected[j] == (w.collected[j] || (j < n && IsColliding(boxes[j], ch)))
    ensures r.(score := w.score, level := w.level, speed := w.speed, collected := w.collected) == w
    decreases n
  {
    if n == 0 then w
    else CheckCoin(SweepTo(w, ch, boxes, n - 1), ch, boxes[n - 1], n - 1)
  }

  /** One call of `gameLoop`: nothing before the game has started;
      otherwise movement, the jump trigger and the coin sweep, in that order. */
  function Tick(c: Config, w: World, ch: Rect, boxes: seq<Rect>): (r: World)
    requires |boxes| == |w.collected|
    ensures !w.started ==> r == w
    ensures r.started == w.started && r.keys == w.keys && r.jumpForce == w.jumpForce
    ensures w.started ==> r.x == Steer(c, w).x
    ensures r.y == w.y
    ensures |r.collected| == |w.collected|
    ensures r.isJumping == (w.isJumping || (w.started && w.keys.space))
    ensures r.timer == if w.started && w.keys.space && !w.isJumping then Rising(0) else w.timer
    ensures w.started ==> forall j :: 0 <= j < |w.collected| ==>
              r.collected[j] == (w.collected[j] || IsColliding(boxes[j], ch))
  {
    if !w.started then w
    else SweepTo(JumpIfHeld(Steer(c, w)), ch, boxes, |boxes|)
  }

  // ---------------------------------------------------------------------
  // Jump physics: one function per interval firing

  /** `jump()`: ignored while jumping; otherwise sets the flag and schedules
      the rise interval with a fresh `jumpHeight` of 0. */
  function Jump(w: World): (r: World)
    ensures r.isJumping
    ensures w.isJumping ==> r == w
    ensures !w.isJumping ==> r.timer == Rising(0)
    ensures r.(isJumping := w.isJumping, timer := w.timer) == w
  {
    if w.isJumping then w else w.(isJumping := true, timer := Rising(0))
  }

  /** One firing of the rise interval: below the cap, move up by
      `jumpForce` and count it in `jumpHeight`; at or past the cap, stop
      and hand over to the fall interval without moving. */
  function RiseStep(w: World): (r: World)
    requires w.timer.Rising?
    ensures r.timer.Falling? <==> w.timer.jumpHeight >= RiseCap
    ensures r.timer.Rising? ==> r.y - w.y == r.timer.jumpHeight - w.timer.jumpHeight == w.jumpForce
    ensures r.timer.Falling? ==> r.y == w.y
    ensures w.timer.jumpHeight < RiseCap ==>
              r.y == w.y + w.jumpForce && r.timer == Rising(w.timer.jumpHeight + w.jumpForce)
    ensures w.timer.jumpHeight >= RiseCap ==> r.y == w.y && r.timer == Falling
    ensures r.(y := w.y, timer := w.timer) == w
  {
    var h := w.timer.jumpHeight;
    if h < RiseCap then w.(y := w.y + w.jumpForce, timer := Rising(h + w.jumpForce))
    else w.(timer := Falling)
  }

  /** One firing of the fall interval. Above the resting height the
      character is put back to rest at once, the jump ends and the interval
      stops; at or below it the character moves down by `jumpForce`. */
  function FallStep(c: Config, w: World): (r: World)
    requires w.timer.Falling?
    ensures r.timer.Idle? <==> w.y > c.rest
    ensures r.timer.Idle? ==> r.y == c.rest && !r.isJumping
    ensures r.timer.Falling? ==> r.y == w.y - w.jumpForce && r.isJumping == w.isJumping
    ensures w.y > c.rest ==> r.y == c.rest && !r.isJumping && r.timer == Idle
    ensures w.y <= c.rest ==> r.y == w.y - w.jumpForce && r.isJumping == w.isJumping && r.timer == Falling
    ensures r.(y := w.y, isJumping := w.isJumping, timer := w.timer) == w
  {
    if w.y > c.rest then w.(y := c.rest, isJumping := false, timer := Idle)
    else w.(y := w.y - w.jumpForce)
  }

  /** The host firing whichever jump interval is currently scheduled. */
  function Fire(c: Config, w: World): (r: World)
    ensures w.timer.Idle? ==> r == w
    ensures r.(y := w.y, isJumping := w.isJumping, timer := w.timer) == w
  {
    match w.timer
    case Idle => w
    case Rising(_) => RiseStep(w)
    case Falling => FallStep(c, w)
  }

  /** `n` consecutive interval firings. */
  function FireN(c: Config, w: World, n: nat): World
    decreases n
  {
    if n == 0 then w else FireN(c, Fire(c, w), n - 1)
  }

  // ---------------------------------------------------------------------
  // Scoring

  /** `collectCoin`: mark the coin, add 10 to the score and level up when
      the new score is a multiple of 30. */
  function CollectCoin(w: World, i: nat): (r: World)
    requires i < |w.collected|
    ensures r.collected == w.collected[i := true]
    ensures r.score == w.score + ScorePerCoin
    ensures r.level - w.level == r.speed - w.speed == if r.score % LevelEvery == 0 then 1 else 0
    ensures r.(score := w.score, level := w.level, speed := w.speed, collected := w.collected) == w
  {
    var w1 := w.(collected := w.collected[i := true], score := w.score + ScorePerCoin);
    if w1.score % LevelEvery == 0 then LevelUp(w1) else w1
  }

  /** `levelUp`: one more level and one more pixel of speed per step. */
  function LevelUp(w: World): (r: World)
    ensures r.level > w.level && r.speed > w.speed
    ensures r.level - w.level == r.speed - w.speed == 1
    ensures r.(level := w.level, speed := w.speed) == w
  {
    w.(level := w.level + 1, speed := w.speed + 1)
  }

  /** The number of collected coins. */
  function Count(s: seq<bool>): (n: nat)
    ensures n <= |s|
  {
    if s == [] then 0 else (if s[|s| - 1] then 1 else 0) + Count(s[..|s| - 1])
  }
}
