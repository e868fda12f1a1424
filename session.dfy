/** The mini-game as the page runs it: one object holding the mutable game
    variables, the character record and the key map, with one method per
    event handler, per game-loop tick and per interval firing. Every method
    is proved to perform the step of module GameRules on the object's state
    and, where the page calls it as an event, to keep the invariant. */
module GameSession {
  import opened Geometry
  import opened GameRules
  import opened GameInvariant

  class Game {
    /** The viewport width and the resting height `innerHeight - 100`. */
    const width: int
    const rest: int
    /** The character record's jump force; the page never changes it. */
    const jumpForce: int

    var score: int
    var level: int
    var started: bool
    var x: int
    var y: int
    var speed: int
    var isJumping: bool
    /** The key map `keys`. */
    var arrowLeft: bool
    var arrowRight: bool
    var space: bool
    /** The jump interval currently scheduled, with its `jumpHeight`. */
    var timer: Timer
    /** The `collected` class of each coin, in document order. */
    var collected: seq<bool>

    function Viewport(): Config {
      Config(width, rest)
    }

    ghost function State(): World
      reads this
    {
      World(score, level, started, x, y, speed, jumpForce, isJumping,
            Keys(arrowLeft, arrowRight, space), timer, collected)
    }

    ghost predicate Valid()
      reads this
    {
      Inv(Viewport(), State())
    }

    /** The state at page load: the character centred (in whole pixels),
        at rest, with speed 5 and jump force 15; no key held. */
    constructor (viewportWidth: int, viewportHeight: int, coins: nat)
      requires 0 <= viewportWidth
      ensures width == viewportWidth && rest == viewportHeight - 100
      ensures State() == Initial(Viewport(), coins)
      ensures Valid()
    {
      width, rest, jumpForce := viewportWidth, viewportHeight - 100, InitialJumpForce;
      score, level, started := 0, 1, false;
      x, y, speed, isJumping := viewportWidth / 2, viewportHeight - 100, InitialSpeed, false;
      arrowLeft, arrowRight, space := false, false, false;
      timer := Idle;
      collected := seq(coins, _ => false);
      new;
      InitialInv(Viewport(), coins);
    }

    method SetKey(code: string, v: bool)
      modifies this
      ensures State() == old(State()).(keys := GameRules.SetKey(old(State()).keys, code, v))
    {
      if code == ArrowLeft {
        arrowLeft := v;
      } else if code == ArrowRight {
        arrowRight := v;
      } else if code == Space {
        space := v;
      }
    }

    /** The keydown listener. */
    method KeyDown(code: string, ch: Rect, boxes: seq<Rect>)
      requires Valid() && |boxes| == |collected|
      modifies this
      ensures Valid()
      ensures State() == GameRules.KeyDown(Viewport(), old(State()), code, ch, boxes)
    {
      if code == Space && !started {
        StartGame(ch, boxes);
      }
      SetKey(code, true);
    }

    /** The keyup listener. */
    method KeyUp(code: string)
      requires Valid()
      modifies this
      ensures Valid()
      ensures State() == GameRules.KeyUp(old(State()), code)
    {
      SetKey(code, false);
    }

    /** `startGame`: mark the game started and run the first tick. */
    method StartGame(ch: Rect, boxes: seq<Rect>)
      requires Valid() && |boxes| == |collected|
      modifies this
      ensures Valid()
      ensures State() == GameRules.StartGame(Viewport(), old(State()), ch, boxes)
    {
      started := true;
      Tick(ch, boxes);
    }

    /** One call of `gameLoop`, given the bounding boxes the layout reports
        for the character and for each coin. */
    method Tick(ch: Rect, boxes: seq<Rect>)
      requires Valid() && |boxes| == |collected|
      modifies this
      ensures Valid()
      ensures State() == GameRules.Tick(Viewport(), old(State()), ch, boxes)
    {
      if !started {
        return;
      }
      Steer();
      if space && !isJumping {
        Jump();
      }
      Sweep(ch, boxes);
    }

    /** The movement part of a tick: the guarded left and right steps. */
    method Steer()
      requires Valid()
      modifies this
      ensures Valid()
      ensures State() == GameRules.Steer(Viewport(), old(State()))
    {
      if arrowLeft && x > 0 {
        x := x - speed;
      }
      if arrowRight && x < width {
        x := x + speed;
      }
    }

    /** The coin sweep of a tick: every coin not yet collected whose box
        collides with the character's box is collected, in order. */
    method Sweep(ch: Rect, boxes: seq<Rect>)
      requires Valid() && |boxes| == |collected|
      modifies this
      ensures Valid()
      ensures State() == SweepTo(old(State()), ch, boxes, |boxes|)
    {
      var i := 0;
      while i < |boxes|
        invariant i <= |boxes| == |collected|
        invariant State() == SweepTo(old(State()), ch, boxes, i)
        invariant Valid()
      {
        if !collected[i] && IsColliding(boxes[i], ch) {
          CollectCoin(i);
        }
        i := i + 1;
      }
    }

    /** `jump()`: ignored while a jump is under way; otherwise starts one by
        scheduling the rise interval. The page only calls it from the running
        game loop, and only there does it keep the invariant. */
    method Jump()
      requires Valid()
      modifies this
      ensures old(started) ==> Valid()
      ensures State() == GameRules.Jump(old(State()))
    {
      if isJumping {
        return;
      }
      isJumping := true;
      timer := Rising(0);
    }

    /** One firing of the rise interval. */
    method RiseStep()
      requires Valid() && timer.Rising?
      modifies this
      ensures Valid()
      ensures State() == GameRules.RiseStep(old(State()))
    {
      var jumpHeight := timer.jumpHeight;
      if jumpHeight < RiseCap {
        y := y + jumpForce;
        timer := Rising(jumpHeight + jumpForce);
      } else {
        timer := Falling;
      }
    }

    /** One firing of the fall interval. */
    method FallStep()
      requires timer.Falling?
      modifies this
      ensures old(Valid()) ==> Valid()
      ensures State() == GameRules.FallStep(Viewport(), old(State()))
    {
      if y > rest {
        y := rest;
        isJumping := false;
        timer := Idle;
      } else {
        y := y - jumpForce;
      }
    }

    /** `collectCoin`. The page only calls it on a coin not yet collected,
        and only then does it keep the invariant. */
    method CollectCoin(i: nat)
      requires i < |collected|
      modifies this
      ensures State() == GameRules.CollectCoin(old(State()), i)
      ensures old(Valid()) && !old(collected[i]) ==> Valid()
    {
      ghost var before := State();
      collected := collected[i := true];
      score := score + ScorePerCoin;
      if score % LevelEvery == 0 {
        LevelUp();
      }
      if Inv(Viewport(), before) && !before.collected[i] {
        CollectInv(Viewport(), before, i);
      }
    }

    /** `levelUp`. */
    method LevelUp()
      modifies this
      ensures State() == GameRules.LevelUp(old(State()))
    {
      level := level + 1;
      speed := speed + 1;
    }
  }

  /** A player presses Space on a page without coins: the press starts the
      game, the next tick starts a jump, and nine firings later (seven
      rises, the hand-over, one fall firing) the character is back at rest.
      Another Space press while in the air, and the tick after it, leave the
      height at the peak and the rise interval where it was. */
  method PlayOneJump(viewportWidth: int, viewportHeight: int)
    returns (peak: int, held: int, pending: Timer, landed: int, jumping: bool)
    requires 0 <= viewportWidth
    ensures peak == viewportHeight - 100 + 105
    ensures held == peak && pending == Rising(105)
    ensures landed == viewportHeight - 100 && !jumping
  {
    var g := new Game(viewportWidth, viewportHeight, 0);
    var noBox := Rect(0, 0, 0, 0);
    g.KeyDown(Space, noBox, []);
    g.Tick(noBox, []);
    assert g.isJumping && g.timer == Rising(0);
    var i := 0;
    while i < 7
      invariant 0 <= i <= 7 && g.Valid() && |g.collected| == 0
      invariant g.timer == Rising(15 * i) && g.space && g.started
      invariant g.rest == viewportHeight - 100 && g.jumpForce == 15
    {
      g.RiseStep();
      i := i + 1;
    }
    peak := g.y;
    g.KeyDown(Space, noBox, []);
    g.Tick(noBox, []);
    held, pending := g.y, g.timer;
    g.RiseStep();
    g.FallStep();
    landed, jumping := g.y, g.isJumping;
  }
}
