/** The relationships between the game's variables that every event keeps:
    the score counts the collected coins, the level and the speed follow the
    score, the horizontal position stays within one step of the viewport,
    and the jump flag, the pending interval and the height agree. */
module GameInvariant {
  import opened Geometry
  import opened GameRules

  predicate Inv(c: Config, w: World) {
    0 <= c.width && 0 < w.jumpForce &&
    w.score == ScorePerCoin * Count(w.collected) &&
    w.level == 1 + w.score / LevelEvery &&
    w.speed == InitialSpeed - 1 + w.level &&
    -w.speed < w.x < c.width + w.speed &&
    (!w.started ==> !w.keys.space && w.timer == Idle) &&
    (w.isJumping <==> !w.timer.Idle?) &&
    match w.timer
    case Idle => w.y == c.rest
    case Rising(h) => 0 <= h < RiseCap + w.jumpForce && w.y == c.rest + h
    case Falling => w.y >= c.rest + RiseCap
  }

  // ---------------------------------------------------------------------
  // Counting collected coins

  lemma {:induction false} CountAllFalse(n: nat)
    ensures Count(seq(n, _ => false)) == 0
  {
    if n > 0 {
      assert seq(n, _ => false)[..n - 1] == seq(n - 1, _ => false);
      CountAllFalse(n - 1);
    }
  }

  /** Collecting a coin not yet collected adds exactly one to the count. */
  lemma {:induction false} CountCollect(s: seq<bool>, i: nat)
    requires i < |s| && !s[i]
    ensures Count(s[i := true]) == Count(s) + 1
  {
    var t := s[i := true];
    var k := |s| - 1;
    if i == k {
      assert t[..k] == s[..k];
    } else {
      assert t[..k] == s[..k][i := true];
      CountCollect(s[..k], i);
    }
  }

  /** The level rule: with a score of 10 * n, the level-up test on the next
      coin fires exactly when the quotient by 30 grows. */
  lemma LevelStep(n: nat)
    ensures (ScorePerCoin * (n + 1)) / LevelEvery ==
            (ScorePerCoin * n) / LevelEvery + (if (ScorePerCoin * (n + 1)) % LevelEvery == 0 then 1 else 0)
  {
  }

  // ---------------------------------------------------------------------
  // Every event keeps the invariant

  lemma InitialInv(c: Config, coins: nat)
    requires 0 <= c.width
    ensures Inv(c, Initial(c, coins))
  {
    CountAllFalse(coins);
  }

  /** Collecting a coin that is not yet collected keeps the score/level/speed
      relationships; in particular the score grows by exactly 10. */
  lemma CollectInv(c: Config, w: World, i: nat)
    requires Inv(c, w) && i < |w.collected| && !w.collected[i]
    ensures Inv(c, CollectCoin(w, i))
  {
    CountCollect(w.collected, i);
    LevelStep(Count(w.collected));
  }

  lemma {:induction false} SweepInv(c: Config, w: World, ch: Rect, boxes: seq<Rect>, n: nat)
    requires Inv(c, w) && n <= |boxes| == |w.collected|
    ensures Inv(c, SweepTo(w, ch, boxes, n))
    decreases n
  {
    if n > 0 {
      SweepInv(c, w, ch, boxes, n - 1);
      var p := SweepTo(w, ch, boxes, n - 1);
      if !p.collected[n - 1] && IsColliding(boxes[n - 1], ch) {
        CollectInv(c, p, n - 1);
      }
    }
  }

  lemma TickInv(c: Config, w: World, ch: Rect, boxes: seq<Rect>)
    requires Inv(c, w) && |boxes| == |w.collected|
    ensures Inv(c, Tick(c, w, ch, boxes))
  {
    if w.started {
      SweepInv(c, JumpIfHeld(Steer(c, w)), ch, boxes, |boxes|);
    }
  }

  lemma KeyDownInv(c: Config, w: World, code: string, ch: Rect, boxes: seq<Rect>)
    requires Inv(c, w) && |boxes| == |w.collected|
    ensures Inv(c, KeyDown(c, w, code, ch, boxes))
  {
    if code == Space && !w.started {
      TickInv(c, w.(started := true), ch, boxes);
    }
  }

  lemma KeyUpInv(c: Config, w: World, code: string)
    requires Inv(c, w)
    ensures Inv(c, KeyUp(w, code))
  {
  }

  lemma FireInv(c: Config, w: World)
    requires Inv(c, w)
    ensures Inv(c, Fire(c, w))
  {
  }

  /** The Space press that starts the game runs its tick before that press
      is recorded, so the first tick never starts a jump: afterwards the
      game is running and Space is held, but no jump is under way yet. The
      tick itself does happen: the arrow keys already held move the
      character, and every coin under it is collected at once. */
  lemma FirstSpaceNoJump(c: Config, w: World, ch: Rect, boxes: seq<Rect>)
    requires Inv(c, w) && !w.started && |boxes| == |w.collected|
    ensures var r := KeyDown(c, w, Space, ch, boxes);
            r.started && r.keys.space && !r.isJumping && r.timer == Idle
    ensures KeyDown(c, w, Space, ch, boxes).x == Steer(c, w).x
    ensures forall j :: 0 <= j < |w.collected| ==>
              KeyDown(c, w, Space, ch, boxes).collected[j] == (w.collected[j] || IsColliding(boxes[j], ch))
  {
  }

  // ---------------------------------------------------------------------
  // What the invariant says about scoring

  /** Every coin contributes at most once: the score never exceeds 10 per
      coin on the page, and the level and speed are functions of the score. */
  lemma ScoreBounds(c: Config, w: World)
    requires Inv(c, w)
    ensures 0 <= w.score <= ScorePerCoin * |w.collected|
    ensures w.score % ScorePerCoin == 0
    ensures w.level == 1 + w.score / LevelEvery && w.speed == 4 + w.level
  {
  }

  /** A tick changes the score by exactly 10 per coin it newly collects. */
  lemma {:induction false} SweepScore(c: Config, w: World, ch: Rect, boxes: seq<Rect>, n: nat)
    requires Inv(c, w) && n <= |boxes| == |w.collected|
    ensures SweepTo(w, ch, boxes, n).score - w.score ==
            ScorePerCoin * (Count(SweepTo(w, ch, boxes, n).collected) - Count(w.collected))
  {
    SweepInv(c, w, ch, boxes, n);
  }

  /** Three coins collected one after another from the start: the score is
      30, exactly one level-up has happened, and the speed went up once. */
  lemma ThreeCoinsLevelUp(c: Config)
    requires 0 <= c.width
    ensures var w := CollectCoin(CollectCoin(CollectCoin(Initial(c, 3), 0), 1), 2);
            w.score == 30 && w.level == 2 && w.speed == 6 && w.collected == [true, true, true]
  {
  }
}
