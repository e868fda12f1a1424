/** The jump as the interval firings produce it: how many rise firings a
    jump takes, how high it goes, and that a whole cycle of firings brings
    the character back to exactly the state it jumped from. */
module JumpPhysics {
  import opened GameRules
  import opened GameInvariant

  /** The number of rise firings that move the character, starting from a
      rise interval at height h. */
  function RiseMoves(h: int, jumpForce: int): (n: nat)
    requires 0 < jumpForce
    ensures h >= RiseCap <==> n == 0
    decreases RiseCap - h
  {
    if h >= RiseCap then 0 else 1 + RiseMoves(h + jumpForce, jumpForce)
  }

  /** The height at which the rise interval hands over to the fall interval:
      the first value of h, h + f, h + 2f, ... that reaches the cap. It
      overshoots the cap by less than one step. */
  function Peak(h: int, jumpForce: int): (p: int)
    requires 0 < jumpForce
    ensures h < RiseCap ==> RiseCap <= p < RiseCap + jumpForce
    ensures h >= RiseCap ==> p == h
    ensures p == h + RiseMoves(h, jumpForce) * jumpForce
    decreases RiseCap - h
  {
    if h >= RiseCap then h else Peak(h + jumpForce, jumpForce)
  }

  /** `jump()` does nothing while a jump is under way, so a second request
      is ignored; and a tick only starts a jump when Space is held and the
      character is on the ground. */
  lemma JumpGuard(w: World)
    ensures w.isJumping ==> Jump(w) == w
    ensures Jump(Jump(w)) == Jump(w)
    ensures JumpIfHeld(w) != w <==> w.keys.space && !w.isJumping
    ensures JumpIfHeld(w) != w ==> JumpIfHeld(w).isJumping && JumpIfHeld(w).timer == Rising(0)
  {
  }

  lemma {:induction false} FireNAdd(c: Config, w: World, a: nat, b: nat)
    ensures FireN(c, w, a + b) == FireN(c, FireN(c, w, a), b)
    decreases a
  {
    if a > 0 {
      FireNAdd(c, Fire(c, w), a - 1, b);
    }
  }

  /** From a rise interval at height h, the rise firings carry the character
      up to the peak and the next firing schedules the fall interval; the
      jump flag and everything but the height stay as they were. */
  lemma {:induction false} RisePhase(c: Config, w: World)
    requires w.timer.Rising? && 0 < w.jumpForce
    ensures var k := RiseMoves(w.timer.jumpHeight, w.jumpForce);
            FireN(c, w, k + 1) ==
              w.(y := w.y + Peak(w.timer.jumpHeight, w.jumpForce) - w.timer.jumpHeight, timer := Falling)
    ensures forall j :: 0 <= j <= RiseMoves(w.timer.jumpHeight, w.jumpForce) + 1 ==>
              FireN(c, w, j).isJumping == w.isJumping && !FireN(c, w, j).timer.Idle?
    decreases RiseCap - w.timer.jumpHeight
  {
    var h, f := w.timer.jumpHeight, w.jumpForce;
    if h >= RiseCap {
      assert FireN(c, w, 1) == w.(timer := Falling);
      forall j | 0 <= j <= 1
        ensures FireN(c, w, j).isJumping == w.isJumping && !FireN(c, w, j).timer.Idle?
      {
        if j == 1 { assert FireN(c, w, 1) == FireN(c, Fire(c, w), 0); }
      }
    } else {
      var w1 := Fire(c, w);
      assert w1 == w.(y := w.y + f, timer := Rising(h + f));
      RisePhase(c, w1);
      var k1 := RiseMoves(h + f, f);
      assert FireN(c, w, k1 + 2) == FireN(c, w1, k1 + 1);
      forall j | 0 <= j <= k1 + 2
        ensures FireN(c, w, j).isJumping == w.isJumping && !FireN(c, w, j).timer.Idle?
      {
        if j > 0 { assert FireN(c, w, j) == FireN(c, w1, j - 1); }
      }
    }
  }

  /** The firings of one whole jump: RiseMoves(0, f) rises, one firing that
      hands over to the fall interval, and one fall firing. */
  function CycleFirings(jumpForce: int): nat
    requires 0 < jumpForce
  {
    RiseMoves(0, jumpForce) + 2
  }

  /** A whole jump from rest: the jump flag is set during every firing of
      the cycle, and the last firing restores exactly the state before the
      jump (back at rest, not jumping, no interval scheduled). */
  lemma JumpCycle(c: Config, w: World)
    requires Inv(c, w) && !w.isJumping
    ensures var n := CycleFirings(w.jumpForce);
            FireN(c, Jump(w), n) == w &&
            forall j :: 0 <= j < n ==> FireN(c, Jump(w), j).isJumping
  {
    var f := w.jumpForce;
    var k := RiseMoves(0, f);
    var wj := Jump(w);
    RisePhase(c, wj);
    var top := FireN(c, wj, k + 1);
    assert top.y > c.rest;
    FireNAdd(c, wj, k + 1, 1);
    assert FireN(c, top, 1) == FireN(c, Fire(c, top), 0);
  }

  /** Whenever the invariant holds, a fall firing is the last one: whatever
      the jump force, the character is at rest and no longer jumping. */
  lemma FirstFallLands(c: Config, w: World)
    requires Inv(c, w) && w.timer.Falling?
    ensures FallStep(c, w).y == c.rest && !FallStep(c, w).isJumping
    ensures FallStep(c, w) == w.(y := c.rest, isJumping := false, timer := Idle)
  {
  }

  /** The page's own jump force of 15: seven rises to a peak of 105 above
      rest, then the hand-over and a single fall firing, nine in all. */
  lemma DefaultJump()
    ensures RiseMoves(0, InitialJumpForce) == 7
    ensures Peak(0, InitialJumpForce) == 105
    ensures CycleFirings(InitialJumpForce) == 9
  {
  }

  /** A jump force of 20 divides the cap: five rises to exactly 100, then
      the hand-over and a single fall firing, seven in all. */
  lemma EvenJump()
    ensures RiseMoves(0, 20) == 5 && Peak(0, 20) == 100 && CycleFirings(20) == 7
  {
  }
}
