/**
 * What the update rules of module Rules guarantee: the layout built by
 * initGame, the clamping of the paddle, the exact effect of one collision
 * pass on velocity, blocks, score and the game-over flag, and the invariant
 * `Inv` kept from initGame through every frame and pointer move.
 */
module Properties {
  import opened Rules

  /** `v` with its sign flipped `n` times. */
  function Flip(n: int, v: int): int {
    if n % 2 == 0 then v else -v
  }

  /** 1 for a contact that happened, 0 otherwise. */
  function Count(c: bool): int {
    if c then 1 else 0
  }

  // ------------------------------------------------------------------- grid

  lemma {:induction false} GridSize(rows: nat)
    ensures |Grid(rows)| == 10 * rows
  {
    if rows > 0 {
      GridSize(rows - 1);
    }
  }

  /** Block `row * 10 + col` of the grid is the one pushed for (row, col). */
  lemma {:induction false} GridCell(rows: nat, row: nat, col: nat)
    requires row < rows && col < 10
    ensures |Grid(rows)| == 10 * rows
    ensures Grid(rows)[row * 10 + col] == Block(col * 60, row * 30, 55, 25, true)
  {
    GridSize(rows);
    GridSize(rows - 1);
    if row < rows - 1 {
      GridCell(rows - 1, row, col);
    } else {
      assert Grid(rows)[row * 10 + col] == GridRow(row)[col];
    }
  }

  /** Every block of the grid starts visible. */
  lemma {:induction false} GridVisible(rows: nat)
    ensures forall k :: 0 <= k < |Grid(rows)| ==> Grid(rows)[k].visible
  {
    if rows > 0 {
      GridVisible(rows - 1);
    }
  }

  /** Two blocks laid out like the grid never both contain the ball's centre. */
  lemma CellsDisjoint(bs: seq<Block>, b: Ball, j: nat, k: nat)
    requires SameCells(bs, Grid(5))
    requires j < |bs| && k < |bs|
    requires Inside(b, bs[j]) && Inside(b, bs[k])
    ensures j == k
  {
    GridSize(5);
    GridCell(5, j / 10, j % 10);
    GridCell(5, k / 10, k % 10);
  }

  // ------------------------------------------------------------ hidden count

  /** Hiding one visible block raises the hidden count by exactly one. */
  lemma {:induction false} HideOne(bs: seq<Block>, i: nat)
    requires i < |bs| && bs[i].visible
    ensures HiddenCount(bs[i := bs[i].(visible := false)]) == HiddenCount(bs) + 1
  {
    var hidden := bs[i := bs[i].(visible := false)];
    if i == 0 {
      assert hidden[1..] == bs[1..];
    } else {
      assert hidden[1..] == bs[1..][i - 1 := bs[i].(visible := false)];
      HideOne(bs[1..], i - 1);
    }
  }

  /** A sequence of visible blocks has none hidden. */
  lemma {:induction false} NoneHidden(bs: seq<Block>)
    requires forall k :: 0 <= k < |bs| ==> bs[k].visible
    ensures HiddenCount(bs) == 0
  {
    if bs != [] {
      NoneHidden(bs[1..]);
    }
  }

  /** When every block is counted as hidden, no block is visible. */
  lemma {:induction false} AllHidden(bs: seq<Block>)
    requires HiddenCount(bs) == |bs|
    ensures forall k :: 0 <= k < |bs| ==> !bs[k].visible
  {
    if bs != [] {
      AllHidden(bs[1..]);
      forall k | 0 < k < |bs|
        ensures !bs[k].visible
      {
        assert bs[k] == bs[1..][k - 1];
      }
    }
  }

  // ---------------------------------------------------------------- initGame

  /** After initGame: 50 visible blocks on the grid, score 0, game running, invariant established. */
  lemma InitialWorldInv(W: int, H: int)
    requires PlayableWidth(W)
    ensures |InitialWorld(W, H).blocks| == 50
    ensures forall k :: 0 <= k < 50 ==> InitialWorld(W, H).blocks[k].visible
    ensures InitialWorld(W, H).score == 0 && !InitialWorld(W, H).isGameOver
    ensures Inv(W, H, InitialWorld(W, H))
  {
    GridSize(5);
    GridVisible(5);
    NoneHidden(Grid(5));
  }

  // -------------------------------------------------------------- movePaddle

  /** A pointer move only repositions the paddle, and keeps it on the canvas. */
  lemma PointerMovedInv(W: int, H: int, w: World, pointerX: int)
    requires Inv(W, H, w)
    ensures var r := PointerMoved(W, w, pointerX);
      && Inv(W, H, r)
      && r.paddle.x == ClampPaddleX(pointerX - 75, W, 150)
      && r == w.(paddle := w.paddle.(x := ClampPaddleX(pointerX - 75, W, 150)))
  {
  }

  // --------------------------------------------------------- checkCollisions

  /** The effect of one visit of the block loop. */
  lemma BlockStepEffect(p: World, i: nat)
    requires i < |p.blocks|
    ensures var q := BlockStep(p, i);
      var hit := p.blocks[i].visible && Inside(p.ball, p.blocks[i]);
      && q.blocks == p.blocks[i := p.blocks[i].(visible := p.blocks[i].visible && !Inside(p.ball, p.blocks[i]))]
      && q.score == p.score + Count(hit)
      && HiddenCount(q.blocks) == HiddenCount(p.blocks) + Count(hit)
      && q.ball == p.ball.(dy := Flip(Count(hit), p.ball.dy))
      && q.paddle == p.paddle
      && q.isGameOver == (p.isGameOver || (hit && q.score == WinningScore))
  {
    if p.blocks[i].visible && Inside(p.ball, p.blocks[i]) {
      HideOne(p.blocks, i);
    } else {
      assert p.blocks[i := p.blocks[i]] == p.blocks;
    }
  }

  /** The exact effect of the first `n` visits of the block loop. */
  lemma {:induction false} BlockPassEffect(w: World, n: nat)
    requires n <= |w.blocks|
    ensures var r := BlockPass(w, n);
      && (forall k :: 0 <= k < |w.blocks| ==>
            r.blocks[k] == if k < n then w.blocks[k].(visible := w.blocks[k].visible && !Inside(w.ball, w.blocks[k]))
                           else w.blocks[k])
      && r.score >= w.score
      && HiddenCount(r.blocks) == HiddenCount(w.blocks) + (r.score - w.score)
      && r.ball == w.ball.(dy := Flip(r.score - w.score, w.ball.dy))
      && r.paddle == w.paddle
      && r.isGameOver == (w.isGameOver || w.score < WinningScore <= r.score)
  {
    if n > 0 {
      var p := BlockPass(w, n - 1);
      var r := BlockPass(w, n);
      assert r == BlockStep(p, n - 1);
      BlockPassEffect(w, n - 1);
      BlockStepEffect(p, n - 1);
      forall k | 0 <= k < |w.blocks|
        ensures r.blocks[k] == if k < n then w.blocks[k].(visible := w.blocks[k].visible && !Inside(w.ball, w.blocks[k]))
                               else w.blocks[k]
      {
        assert r.blocks[k] == if k == n - 1 then p.blocks[k].(visible := p.blocks[k].visible && !Inside(p.ball, p.blocks[k]))
                              else p.blocks[k];
      }
    }
  }

  /** Every intermediate state of the block loop keeps the invariant. */
  lemma BlockPassInv(W: int, H: int, w: World, n: nat)
    requires Inv(W, H, w) && n <= |w.blocks|
    ensures Inv(W, H, BlockPass(w, n))
  {
    BlockPassEffect(w, n);
  }

  /**
   * Velocity after checkCollisions: dx flips exactly when a side wall is hit;
   * dy flips once for the top, once for the paddle and once per cleared block.
   * Positions, radius and the paddle are untouched, and both speeds are kept.
   */
  lemma CollidedVelocity(W: int, H: int, w: World)
    ensures var r := Collided(W, H, w);
      && r.ball.x == w.ball.x && r.ball.y == w.ball.y && r.ball.radius == w.ball.radius
      && r.paddle == w.paddle
      && r.ball.dx == (if WallHit(W, w.ball) then -w.ball.dx else w.ball.dx)
      && r.ball.dy == Flip(Count(TopHit(w.ball)) + Count(PaddleHit(w.ball, w.paddle)) + (r.score - w.score), w.ball.dy)
      && (r.ball.dx == w.ball.dx || r.ball.dx == -w.ball.dx)
      && (r.ball.dy == w.ball.dy || r.ball.dy == -w.ball.dy)
  {
    BlockPassEffect(Deflected(W, H, w), |w.blocks|);
  }

  /**
   * Blocks after checkCollisions: a block is hidden exactly when it was visible
   * and the ball's centre lies strictly inside it; no block reappears, no block
   * moves, and the score rises by the number of blocks newly hidden.
   */
  lemma CollidedBlocks(W: int, H: int, w: World)
    ensures var r := Collided(W, H, w);
      && |r.blocks| == |w.blocks|
      && SameCells(r.blocks, w.blocks)
      && (forall k :: 0 <= k < |w.blocks| ==>
            (r.blocks[k].visible <==> w.blocks[k].visible && !Inside(w.ball, w.blocks[k])))
      && r.score >= w.score
      && r.score - w.score == HiddenCount(r.blocks) - HiddenCount(w.blocks)
  {
    BlockPassEffect(Deflected(W, H, w), |w.blocks|);
  }

  /**
   * The game-over flag after checkCollisions: it is set exactly when it was set
   * already, the ball's bottom edge is below the canvas, or the score passes
   * through 50 during the block loop.
   */
  lemma CollidedGameOver(W: int, H: int, w: World)
    ensures var r := Collided(W, H, w);
      r.isGameOver == (w.isGameOver || FloorHit(H, w.ball) || w.score < WinningScore <= r.score)
  {
    BlockPassEffect(Deflected(W, H, w), |w.blocks|);
  }

  /**
   * Under the grid layout blocks do not overlap, so one call of
   * checkCollisions hides at most one block and scores at most one point.
   */
  lemma CollidedAtMostOneBlock(W: int, H: int, w: World)
    requires Inv(W, H, w)
    ensures Collided(W, H, w).score <= w.score + 1
  {
    var r := Collided(W, H, w);
    CollidedBlocks(W, H, w);
    if m :| 0 <= m < |w.blocks| && w.blocks[m].visible && Inside(w.ball, w.blocks[m]) {
      forall k | 0 <= k < |w.blocks| && k != m
        ensures r.blocks[k] == w.blocks[k]
      {
        if Inside(w.ball, w.blocks[k]) {
          CellsDisjoint(w.blocks, w.ball, m, k);
        }
      }
      assert r.blocks == w.blocks[m := w.blocks[m].(visible := false)];
      HideOne(w.blocks, m);
    } else {
      assert r.blocks == w.blocks;
    }
  }

  /** checkCollisions keeps the invariant. */
  lemma CollidedInv(W: int, H: int, w: World)
    requires Inv(W, H, w)
    ensures Inv(W, H, Collided(W, H, w))
  {
    CollidedVelocity(W, H, w);
    CollidedBlocks(W, H, w);
  }

  // ---------------------------------------------------------------- gameLoop

  /** One frame keeps the invariant and never lowers the score or clears the game-over flag. */
  lemma TickInv(W: int, H: int, w: World)
    requires Inv(W, H, w)
    ensures Inv(W, H, Tick(W, H, w))
    ensures Tick(W, H, w).score >= w.score
    ensures w.isGameOver ==> Tick(W, H, w).isGameOver
  {
    CollidedInv(W, H, BallMoved(w));
    CollidedBlocks(W, H, BallMoved(w));
    CollidedGameOver(W, H, BallMoved(w));
  }

  /** A won game has every block hidden. */
  lemma WonClearsAll(W: int, H: int, w: World)
    requires Inv(W, H, w) && w.score == WinningScore
    ensures forall k :: 0 <= k < |w.blocks| ==> !w.blocks[k].visible
  {
    GridSize(5);
    AllHidden(w.blocks);
  }

  /** Any run of frames and pointer moves from a valid state keeps the invariant. */
  lemma {:induction false} RunInv(W: int, H: int, w: World, inputs: seq<Input>)
    requires Inv(W, H, w)
    ensures Inv(W, H, Run(W, H, w, inputs))
    decreases |inputs|
  {
    if inputs != [] && !w.isGameOver {
      match inputs[0]
      case Frame =>
        TickInv(W, H, w);
        RunInv(W, H, Tick(W, H, w), inputs[1..]);
      case PointerMove(px) =>
        PointerMovedInv(W, H, w, px);
        RunInv(W, H, PointerMoved(W, w, px), inputs[1..]);
    }
  }

  /** Over a run, the score never falls and a hidden block never reappears. */
  lemma {:induction false} RunMonotone(W: int, H: int, w: World, inputs: seq<Input>)
    requires Inv(W, H, w)
    ensures var r := Run(W, H, w, inputs);
      && r.score >= w.score
      && |r.blocks| == |w.blocks|
      && forall k :: 0 <= k < |w.blocks| && !w.blocks[k].visible ==> !r.blocks[k].visible
    decreases |inputs|
  {
    if inputs != [] && !w.isGameOver {
      match inputs[0]
      case Frame =>
        TickInv(W, H, w);
        CollidedBlocks(W, H, BallMoved(w));
        RunMonotone(W, H, Tick(W, H, w), inputs[1..]);
      case PointerMove(px) =>
        PointerMovedInv(W, H, w, px);
        RunMonotone(W, H, PointerMoved(W, w, px), inputs[1..]);
    }
  }

  /** Once a run has ended the game, further inputs change nothing. */
  lemma {:induction false} TerminalIsFinal(W: int, H: int, w: World, inputs: seq<Input>, later: seq<Input>)
    requires Run(W, H, w, inputs).isGameOver
    ensures Run(W, H, w, inputs + later) == Run(W, H, w, inputs)
    decreases |inputs|
  {
    if inputs == [] {
    } else if !w.isGameOver {
      assert (inputs + later)[1..] == inputs[1..] + later;
      var next := match inputs[0]
        case Frame => Tick(W, H, w)
        case PointerMove(px) => PointerMoved(W, w, px);
      TerminalIsFinal(W, H, next, inputs[1..], later);
    }
  }

  // --------------------------------------------------------------- scenarios

  /**
   * A ball 10 pixels above the paddle top and falling at 3 per frame is not
   * deflected on the first frame (after the move its bottom edge, 563 + 5, is
   * not below the paddle's top, 570) but is on the second (566 + 5 > 570).
   */
  lemma PaddleScenario()
    ensures var w := World([], Paddle(325, 570, 150, 10, 0), Ball(400, 560, 5, 3, 3), 0, false);
      var r1 := Tick(800, 600, w);
      var r2 := Tick(800, 600, r1);
      && r1.ball.y == 563 && r1.ball.dy == 3 && r1.score == 0 && !r1.isGameOver
      && r2.ball.y == 566 && r2.ball.dy == -3 && r2.score == 0 && !r2.isGameOver
  {
  }

  /** A ball whose centre moves to (65, 40) hides the block at (60, 30), scores one point and turns back. */
  lemma BlockHitScenario()
    ensures var w := World([Block(60, 30, 55, 25, true)], Paddle(325, 570, 150, 10, 0), Ball(62, 43, 5, 3, -3), 0, false);
      var r := Tick(800, 600, w);
      && r.blocks == [Block(60, 30, 55, 25, false)]
      && r.score == 1 && r.ball.dy == 3 && !r.isGameOver
  {
  }
}
