/**
 * The mutable `gameState` of game.js and the functions that update it in
 * place. Each method performs the source's assignments on the fields and is
 * proved to leave the state that the matching function of module Rules
 * computes from the old state (EndGame: the flag set, nothing else changed).
 * `Valid()` is the invariant `Inv` of Rules; InitGame establishes it and
 * MovePaddle, MoveBall, CheckCollisions and GameLoop keep it.
 */
module Game {
  import opened Rules
  import Properties

  class GameState {
    /** `canvas.width` and `canvas.height`. */
    const W: int
    const H: int

    var blocks: seq<Block>
    var paddle: Paddle
    var ball: Ball
    var score: int
    var isGameOver: bool

    /** The fields as one value. */
    ghost function State(): World
      reads this
    {
      World(blocks, paddle, ball, score, isGameOver)
    }

    ghost predicate Valid()
      reads this
    {
      PlayableWidth(W) && Inv(W, H, State())
    }

    /**
     * The global as first declared: no blocks, score 0, not over. The paddle
     * and ball start as empty objects, given here as all-zero records.
     */
    constructor (width: int, height: int)
      ensures W == width && H == height
      ensures blocks == [] && score == 0 && !isGameOver
    {
      W, H := width, height;
      blocks := [];
      paddle := Paddle(0, 0, 0, 0, 0);
      ball := Ball(0, 0, 0, 0, 0);
      score := 0;
      isGameOver := false;
    }

    /** Rebuilds the grid row by row, resets paddle, ball, score and flag, whatever the old state. */
    method InitGame()
      requires PlayableWidth(W)
      modifies this
      ensures Valid()
      ensures State() == InitialWorld(W, H)
    {
      blocks := [];
      for row := 0 to 5
        invariant blocks == Grid(row)
      {
        for col := 0 to 10
          invariant blocks == Grid(row) + GridRow(row)[..col]
        {
          assert GridRow(row)[..col + 1] == GridRow(row)[..col] + [BlockAt(row, col)];
          blocks := blocks + [Block(col * 60, row * 30, 55, 25, true)];
        }
        assert GridRow(row)[..10] == GridRow(row);
      }
      paddle := Paddle(W / 2 - 75, H - 30, 150, 10, 0);
      ball := Ball(W / 2, H - 40, 5, 3, -3);
      score := 0;
      isGameOver := false;
      Properties.InitialWorldInv(W, H);
    }

    /** The pointer handler; `pointerX` is the pointer's x-coordinate relative to the canvas. */
    method MovePaddle(pointerX: int)
      requires Valid()
      modifies this`paddle
      ensures Valid()
      ensures State() == PointerMoved(W, old(State()), pointerX)
    {
      paddle := paddle.(x := pointerX - paddle.width / 2);
      if paddle.x < 0 {
        paddle := paddle.(x := 0);
      }
      if paddle.x + paddle.width > W {
        paddle := paddle.(x := W - paddle.width);
      }
      Properties.PointerMovedInv(W, H, old(State()), pointerX);
    }

    method MoveBall()
      requires Valid()
      modifies this`ball
      ensures Valid()
      ensures State() == BallMoved(old(State()))
    {
      ball := ball.(x := ball.x + ball.dx);
      ball := ball.(y := ball.y + ball.dy);
    }

    /** The state half of endGame; the `won` argument only chooses the message text. */
    method EndGame()
      modifies this`isGameOver
      ensures isGameOver
    {
      isGameOver := true;
    }

    method CheckCollisions()
      requires Valid()
      modifies this`ball, this`blocks, this`score, this`isGameOver
      ensures Valid()
      ensures State() == Collided(W, H, old(State()))
    {
      if ball.x + ball.radius > W || ball.x - ball.radius < 0 {
        ball := ball.(dx := ball.dx * -1);
      }
      if ball.y - ball.radius < 0 {
        ball := ball.(dy := ball.dy * -1);
      }
      if ball.y + ball.radius > paddle.y && ball.x > paddle.x && ball.x < paddle.x + paddle.width {
        ball := ball.(dy := ball.dy * -1);
      }
      if ball.y + ball.radius > H {
        EndGame();
      }
      ghost var start := State();
      assert start == Deflected(W, H, old(State()));
      for i := 0 to |blocks|
        invariant |blocks| == |start.blocks|
        invariant State() == BlockPass(start, i)
      {
        VisitBlock(i);
      }
      assert State() == Collided(W, H, old(State()));
      Properties.CollidedInv(W, H, old(State()));
    }

    /** The callback the block loop of checkCollisions runs on block `i`. */
    method VisitBlock(i: nat)
      requires i < |blocks|
      modifies this`ball, this`blocks, this`score, this`isGameOver
      ensures State() == BlockStep(old(State()), i)
    {
      if blocks[i].visible {
        if ball.x > blocks[i].x && ball.x < blocks[i].x + blocks[i].width &&
           ball.y > blocks[i].y && ball.y < blocks[i].y + blocks[i].height
        {
          ball := ball.(dy := ball.dy * -1);
          blocks := blocks[i := blocks[i].(visible := false)];
          score := score + 1;
          if score == 50 {
            EndGame();
          }
        }
      }
    }

    /** One animation frame (drawing left out); the result says whether the next frame is requested. */
    method GameLoop() returns (reschedule: bool)
      requires Valid()
      modifies this`ball, this`blocks, this`score, this`isGameOver
      ensures Valid()
      ensures State() == Tick(W, H, old(State()))
      ensures reschedule == !isGameOver
    {
      MoveBall();
      CheckCollisions();
      reschedule := !isGameOver;
    }
  }
}
