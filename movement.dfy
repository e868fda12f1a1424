/** Horizontal movement over successive ticks. The left and right steps are
    guarded by the position, not clamped to the viewport, so the character
    can end up one step beyond either edge. */
module Movement {
  import opened GameRules

  /** The guards of one tick's movement. The position only goes down by a
      left step taken from x > 0, only goes up by a right step taken from
      below the width, and so never moves further out once past an edge. */
  lemma SteerGuards(c: Config, w: World)
    requires 0 < w.speed
    ensures Steer(c, w).x < w.x ==> w.keys.left && w.x > 0 && Steer(c, w).x == w.x - w.speed
    ensures Steer(c, w).x > w.x ==> w.keys.right && w.x < c.width && Steer(c, w).x == w.x + w.speed
    ensures w.x <= 0 ==> Steer(c, w).x >= w.x
    ensures w.x >= c.width ==> Steer(c, w).x <= w.x
    ensures w.keys.left && !w.keys.right && w.x > 0 ==> Steer(c, w).x == w.x - w.speed
    ensures w.keys.right && !w.keys.left && w.x < c.width ==> Steer(c, w).x == w.x + w.speed
    ensures w.keys.left && w.keys.right && 0 < w.x && w.x - w.speed < c.width ==> Steer(c, w).x == w.x
    ensures w.keys.left && w.keys.right && w.x <= 0 && w.x < c.width ==> Steer(c, w).x == w.x + w.speed
    ensures w.keys.left && w.keys.right && 0 < w.x && c.width <= w.x - w.speed ==> Steer(c, w).x == w.x - w.speed
    ensures w.keys.left && w.keys.right && w.x <= 0 && c.width <= w.x ==> Steer(c, w).x == w.x
    ensures Steer(c, w).(x := w.x) == w
  {
  }

  /** The movement parts of n ticks, with the keys and speed held fixed. */
  function SteerN(c: Config, w: World, n: nat): World
    decreases n
  {
    if n == 0 then w else SteerN(c, Steer(c, w), n - 1)
  }

  /** With only the right key held, each tick adds exactly `speed` as long
      as the position before the tick is below the width. */
  lemma {:induction false} RightHeldAdvances(c: Config, w: World, n: nat)
    requires w.keys.right && !w.keys.left && 0 < w.speed
    requires 0 < n && w.x + (n - 1) * w.speed < c.width
    ensures SteerN(c, w, n).x == w.x + n * w.speed
    ensures SteerN(c, w, n).(x := w.x) == w
    decreases n
  {
    var w1 := Steer(c, w);
    assert 0 <= (n - 1) * w.speed;
    assert w1 == w.(x := w.x + w.speed);
    if n > 1 {
      assert w1.x + (n - 2) * w1.speed == w.x + (n - 1) * w.speed;
      RightHeldAdvances(c, w1, n - 1);
      assert w1.x + (n - 1) * w.speed == w.x + n * w.speed;
    }
  }

  /** Once the position has reached the width, holding only the right key
      no longer moves the character. */
  lemma {:induction false} RightHeldStops(c: Config, w: World, n: nat)
    requires w.keys.right && !w.keys.left && w.x >= c.width
    ensures SteerN(c, w, n) == w
    decreases n
  {
    if n > 0 {
      assert Steer(c, w) == w;
      RightHeldStops(c, w, n - 1);
    }
  }

  /** From x = 400 in a viewport 800 wide, at speed 5, twenty ticks with the
      right key held reach 500; eighty reach 800, where further ticks stop. */
  lemma RightHeldScenario(w: World, m: nat)
    requires w.keys.right && !w.keys.left && w.x == 400 && w.speed == 5
    ensures SteerN(Config(800, 0), w, 20).x == 500
    ensures SteerN(Config(800, 0), w, 80).x == 800
    ensures SteerN(Config(800, 0), SteerN(Config(800, 0), w, 80), m).x == 800
  {
    var c := Config(800, 0);
    RightHeldAdvances(c, w, 20);
    RightHeldAdvances(c, w, 80);
    RightHeldStops(c, SteerN(c, w, 80), m);
  }

  /** The guard is not a clamp: from 797 at speed 5 one right step lands on
      802, beyond the 800-pixel width. */
  lemma RightOvershoots(w: World)
    requires w.keys.right && !w.keys.left && w.x == 797 && w.speed == 5
    ensures Steer(Config(800, 0), w).x == 802
  {
  }
}
