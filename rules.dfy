/**
 * Values and update rules of the brick-breaker world that game.js keeps in
 * its global `gameState` object: the block grid, the paddle, the ball, the
 * score and the game-over flag.  Every rule here is a pure function from one
 * snapshot of that object to the next; the class in module Game performs the
 * same updates in place and is proved against these functions.
 *
 * All coordinates are integers: every constant and velocity of the game is an
 * integer, the canvas width is even (so `W / 2` is exact) and the pointer
 * position is taken as an integer.
 */
module Rules {

  /** One brick of the grid. After the grid is built only `visible` changes. */
  datatype Block = Block(x: int, y: int, width: int, height: int, visible: bool)

  /** The paddle. Its `dx` is set to 0 at start and never read. */
  datatype Paddle = Paddle(x: int, y: int, width: int, height: int, dx: int)

  /** The ball: centre, radius and velocity per tick. */
  datatype Ball = Ball(x: int, y: int, radius: int, dx: int, dy: int)

  /** A snapshot of `gameState`. */
  datatype World = World(blocks: seq<Block>, paddle: Paddle, ball: Ball, score: int, isGameOver: bool)

  /** The score at which all blocks are gone and the game is won. */
  const WinningScore := 50

  /** Canvas widths for which the game's integer arithmetic is exact and the paddle fits. */
  predicate PlayableWidth(W: int) {
    W >= 150 && W % 2 == 0
  }

  // ---------------------------------------------------------------- initGame

  /** The block pushed for grid position (row, col). */
  function BlockAt(row: int, col: int): Block {
    Block(col * 60, row * 30, 55, 25, true)
  }

  /** The ten blocks pushed by one pass of the inner loop of initGame. */
  function GridRow(row: int): seq<Block> {
    seq(10, col => BlockAt(row, col))
  }

  /** The blocks pushed by the first `rows` passes of the outer loop of initGame. */
  function Grid(rows: nat): seq<Block> {
    if rows == 0 then [] else Grid(rows - 1) + GridRow(rows - 1)
  }

  /** The state initGame leaves behind on a canvas of size W x H. */
  function InitialWorld(W: int, H: int): World {
    World(Grid(5),
          Paddle(W / 2 - 75, H - 30, 150, 10, 0),
          Ball(W / 2, H - 40, 5, 3, -3),
          0,
          false)
  }

  // -------------------------------------------------------------- movePaddle

  /**
   * The paddle position movePaddle settles on for the raw position `raw`:
   * first raised to 0, then lowered so that the paddle ends inside the canvas.
   */
  function ClampPaddleX(raw: int, W: int, width: int): (x: int)
    ensures width <= W ==> 0 <= x <= W - width
    ensures 0 <= raw && raw + width <= W ==> x == raw
    ensures raw < 0 && width <= W ==> x == 0
    ensures raw + width > W ==> x == W - width
  {
    var raised := if raw < 0 then 0 else raw;
    if raised + width > W then W - width else raised
  }

  /** The world after a pointer move to canvas-relative x-coordinate `pointerX`. */
  function PointerMoved(W: int, w: World, pointerX: int): World {
    w.(paddle := w.paddle.(x := ClampPaddleX(pointerX - w.paddle.width / 2, W, w.paddle.width)))
  }

  // ---------------------------------------------------------------- moveBall

  /** The world after the ball is translated by its velocity. */
  function BallMoved(w: World): World {
    w.(ball := w.ball.(x := w.ball.x + w.ball.dx, y := w.ball.y + w.ball.dy))
  }

  // --------------------------------------------------------- checkCollisions

  /** The ball's horizontal extent leaves the canvas. */
  predicate WallHit(W: int, b: Ball) {
    b.x + b.radius > W || b.x - b.radius < 0
  }

  /** The ball's top edge is above the canvas. */
  predicate TopHit(b: Ball) {
    b.y - b.radius < 0
  }

  /** The ball's bottom edge is below the paddle's top and its centre strictly within the paddle's span. */
  predicate PaddleHit(b: Ball, p: Paddle) {
    b.y + b.radius > p.y && b.x > p.x && b.x < p.x + p.width
  }

  /** The ball's bottom edge is below the canvas. */
  predicate FloorHit(H: int, b: Ball) {
    b.y + b.radius > H
  }

  /** The ball's centre lies strictly inside the block's rectangle. */
  predicate Inside(b: Ball, blk: Block) {
    b.x > blk.x && b.x < blk.x + blk.width && b.y > blk.y && b.y < blk.y + blk.height
  }

  /** One visit of the block loop, to block `i`. */
  function BlockStep(w: World, i: nat): World
    requires i < |w.blocks|
  {
    if w.blocks[i].visible && Inside(w.ball, w.blocks[i]) then
      var score := w.score + 1;
      w.(ball := w.ball.(dy := -w.ball.dy),
         blocks := w.blocks[i := w.blocks[i].(visible := false)],
         score := score,
         isGameOver := w.isGameOver || score == WinningScore)
    else
      w
  }

  /** The block loop after its first `n` visits. */
  function BlockPass(w: World, n: nat): (r: World)
    requires n <= |w.blocks|
    ensures |r.blocks| == |w.blocks|
  {
    if n == 0 then w else BlockStep(BlockPass(w, n - 1), n - 1)
  }

  /** The world after the wall, top, paddle and floor checks of checkCollisions. */
  function Deflected(W: int, H: int, w: World): World {
    var b0 := w.ball;
    var b1 := if WallHit(W, b0) then b0.(dx := -b0.dx) else b0;
    var b2 := if TopHit(b1) then b1.(dy := -b1.dy) else b1;
    var b3 := if PaddleHit(b2, w.paddle) then b2.(dy := -b2.dy) else b2;
    w.(ball := b3, isGameOver := w.isGameOver || FloorHit(H, b3))
  }

  /** The world after checkCollisions: walls, top, paddle, floor, then every block in order. */
  function Collided(W: int, H: int, w: World): World {
    BlockPass(Deflected(W, H, w), |w.blocks|)
  }

  // ---------------------------------------------------------------- gameLoop

  /** The state change of one gameLoop frame: move the ball, then resolve collisions. */
  function Tick(W: int, H: int, w: World): World {
    Collided(W, H, BallMoved(w))
  }

  /** What the browser delivers while a game runs: a display frame or a pointer move. */
  datatype Input = Frame | PointerMove(pointerX: int)

  /**
   * The world after a run of inputs. Once the game is over the frame loop is no
   * longer rescheduled and the pointer listener is detached, so nothing changes.
   */
  function Run(W: int, H: int, w: World, inputs: seq<Input>): World
    decreases |inputs|
  {
    if inputs == [] || w.isGameOver then w
    else
      var next := match inputs[0]
        case Frame => Tick(W, H, w)
        case PointerMove(px) => PointerMoved(W, w, px);
      Run(W, H, next, inputs[1..])
  }

  // -------------------------------------------------------------- invariant

  /** Number of blocks that have been hidden. */
  function HiddenCount(bs: seq<Block>): (n: nat)
    ensures n <= |bs|
  {
    if bs == [] then 0 else (if bs[0].visible then 0 else 1) + HiddenCount(bs[1..])
  }

  /** `a` and `b` have the same blocks at the same places, whatever their visibility. */
  predicate SameCells(a: seq<Block>, b: seq<Block>) {
    && |a| == |b|
    && forall k :: 0 <= k < |a| ==>
         a[k].x == b[k].x && a[k].y == b[k].y && a[k].width == b[k].width && a[k].height == b[k].height
  }

  /**
   * What holds of `gameState` from initGame onward: the grid keeps its layout,
   * the score counts the hidden blocks, the paddle keeps its size and row and
   * stays on the canvas, and the ball keeps its radius and its speed.
   */
  predicate Inv(W: int, H: int, w: World) {
    && SameCells(w.blocks, Grid(5))
    && w.score == HiddenCount(w.blocks)
    && w.paddle.y == H - 30 && w.paddle.width == 150 && w.paddle.height == 10
    && 0 <= w.paddle.x <= W - w.paddle.width
    && w.ball.radius == 5
    && (w.ball.dx == 3 || w.ball.dx == -3)
    && (w.ball.dy == 3 || w.ball.dy == -3)
  }
}
