/** The state machine of flappy-bird.js on values: a World holds everything
    the script keeps in globals (mode, score, best score, frame count, the
    pipe array and the bird), and each function below is what one of the
    script's functions or handlers does to it. The class in session.dfy is
    proved against these functions. */
module Game {
  import opened Bird
  import opened Pipes
  import opened Collision

  /** The script's gameState: 'start', 'playing' or 'gameover'. */
  datatype Mode = Start | Playing | GameOver

  /** Size of the canvas, fixed by the page. */
  datatype Canvas = Canvas(width: nat, height: nat)

  /** The canvas leaves room for the range createPipe draws from; this also
      makes it at least as tall as the bird. */
  predicate Playable(c: Canvas) {
    MinHeight <= MaxHeight(c.height)
  }

  datatype World = World(mode: Mode, score: nat, best: nat, frameCount: nat, pipes: seq<Pipe>, bird: Body)

  /** What every reachable world satisfies: the bird is on the canvas, every
      pipe is as createPipe made it apart from its position and flag, and
      there are no more pipes than spawn times so far. */
  ghost predicate Inv(w: World, c: Canvas) {
    && Playable(c)
    && InBounds(w.bird.y, c.height)
    && (forall p :: p in w.pipes ==> WellFormed(p, c.width, c.height))
    && |w.pipes| <= w.frameCount / PipeFrequency
  }

  /** The world when the page loads, with the stored best score. */
  function Initial(c: Canvas, stored: nat): (w: World)
    requires Playable(c)
    ensures Inv(w, c)
    ensures w.mode == Start && w.score == 0 && w.best == stored
    ensures w.frameCount == 0 && w.pipes == [] && w.bird.velocity == 0.0
    ensures w.bird == Reset(c.height) && w.bird.y * 2.0 == c.height as real
  {
    World(Start, 0, stored, 0, [], Reset(c.height))
  }

  /** gameOver(): the game ends and the best score becomes the larger of
      the best score and the score. */
  function EndGame(w: World): (r: World)
    ensures r.mode == GameOver
    ensures r.best >= w.best && r.best >= w.score && (r.best == w.best || r.best == w.score)
    ensures r == w.(mode := GameOver, best := r.best)
    ensures forall c :: Inv(w, c) ==> Inv(r, c)
  {
    w.(mode := GameOver, best := if w.score > w.best then w.score else w.best)
  }

  /** bird.update() inside the game: the bird moves, and a grounded bird
      ends the game only while it is being played. */
  function BirdStep(w: World, c: Canvas): (r: World)
    requires Playable(c)
    ensures r.bird == Update(w.bird, c.height).body
    ensures r.score == w.score && r.frameCount == w.frameCount && r.pipes == w.pipes
    ensures r.mode == (if w.mode == Playing && Update(w.bird, c.height).grounded then GameOver else w.mode)
    ensures r.best == (if r.mode != w.mode && w.score > w.best then w.score else w.best)
    ensures Inv(w, c) ==> Inv(r, c)
  {
    var m := Update(w.bird, c.height);
    var moved := w.(bird := m.body);
    if m.grounded && w.mode == Playing then EndGame(moved) else moved
  }

  /** updatePipes(): the pipes sweep, the score grows by the points gained,
      the frame count grows by one, and a pipe is created when the new frame
      count is a multiple of the pipe frequency. */
  function PipeStep(w: World, c: Canvas, r: real): (v: World)
    requires Playable(c) && 0.0 <= r < 1.0
    ensures v.mode == w.mode && v.best == w.best && v.bird == w.bird
    ensures v.score == w.score + Gained(w.pipes) && v.frameCount == w.frameCount + 1
    ensures |v.pipes| == |Swept(w.pipes)| + (if v.frameCount % PipeFrequency == 0 then 1 else 0)
    ensures v.pipes[..|Swept(w.pipes)|] == Swept(w.pipes)
    ensures v.frameCount % PipeFrequency == 0 ==>
              v.pipes[|Swept(w.pipes)|] == NewPipe(c.width, TopHeight(r, c.height))
    ensures Inv(w, c) ==> Inv(v, c)
  {
    var ps := Swept(w.pipes);
    var fc := w.frameCount + 1;
    RemainingWellFormed(w.pipes, Fates(w.pipes), |w.pipes|, c.width, c.height);
    w.(pipes := if fc % PipeFrequency == 0 then ps + [NewPipe(c.width, TopHeight(r, c.height))] else ps,
       score := w.score + Gained(w.pipes),
       frameCount := fc)
  }

  /** The spawn test counted by SpawnCadence is the one updatePipes makes:
      a frame adds a pipe to the swept ones exactly when Spawns holds for
      the frame count it started from. */
  lemma PipeStepSpawns(w: World, c: Canvas, r: real)
    requires Playable(c) && 0.0 <= r < 1.0
    ensures Spawns(w.frameCount) <==> |PipeStep(w, c, r).pipes| == |Swept(w.pipes)| + 1
    ensures !Spawns(w.frameCount) <==> PipeStep(w, c, r).pipes == Swept(w.pipes)
  {
  }

  /** gameLoop(): only a frame in play changes the world. It moves the bird
      (which may end the game), then still sweeps the pipes, then ends the
      game if the bird now overlaps a pipe. */
  function Frame(w: World, c: Canvas, r: real): (v: World)
    requires Playable(c) && 0.0 <= r < 1.0
    ensures Inv(w, c) ==> Inv(v, c)
  {
    if w.mode != Playing then w
    else
      var moved := PipeStep(BirdStep(w, c), c, r);
      if Collides(moved.bird.y, moved.pipes) then EndGame(moved) else moved
  }

  /** startGame(): acts only in the start mode, where it starts play with a flap. */
  function Begin(w: World): (r: World)
    ensures w.mode == Start ==> r.mode == Playing && r.bird.velocity == JumpStrength
    ensures w.mode == Start ==> r == w.(mode := Playing, bird := r.bird) && r.bird.y == w.bird.y
    ensures w.mode != Start ==> r == w
  {
    if w.mode == Start then w.(mode := Playing, bird := Jump(w.bird)) else w
  }

  /** A click on the canvas or the Space key: starts the game from the start
      mode, flaps while playing, does nothing after a game over. */
  function Activate(w: World): (r: World)
    ensures r.score == w.score && r.best == w.best && r.frameCount == w.frameCount
    ensures r.pipes == w.pipes && r.bird.y == w.bird.y
    ensures w.mode == GameOver ==> r == w
    ensures w.mode != GameOver ==> r.mode == Playing && r.bird.velocity == JumpStrength
    ensures forall c :: Inv(w, c) ==> Inv(r, c)
  {
    match w.mode
    case Start => Begin(w)
    case Playing => w.(bird := Jump(w.bird))
    case GameOver => w
  }

  /** restartGame(): back to the start mode with no score, no frames, no
      pipes and the bird at rest at mid-height; the best score stays. */
  function Restart(w: World, c: Canvas): (r: World)
    requires Playable(c)
    ensures r == Initial(c, w.best)
  {
    w.(mode := Start, score := 0, frameCount := 0, pipes := [], bird := Reset(c.height))
  }

  /** A frame leaves a world that is not being played as it is; a frame in
      play adds exactly the points the sweep gained, counts one frame, keeps
      the best score from falling and ends in play or game over, the latter
      exactly when the bird grounded or now overlaps a pipe. */
  lemma FrameRules(w: World, c: Canvas, r: real)
    requires Playable(c) && 0.0 <= r < 1.0
    ensures w.mode != Playing ==> Frame(w, c, r) == w
    ensures w.mode == Playing ==>
              var v := Frame(w, c, r);
              && v.score == w.score + Gained(w.pipes)
              && v.frameCount == w.frameCount + 1
              && v.best >= w.best
              && (v.mode == Playing ==> v.best == w.best)
              && v.bird == Update(w.bird, c.height).body
              && (v.mode == Playing || v.mode == GameOver)
              && (v.mode == GameOver <==>
                    Update(w.bird, c.height).grounded || Collides(v.bird.y, v.pipes))
  {
  }

  /** When a frame in play ends the game, the best score covers the final
      score whenever the game ended on a pipe or the sweep gained nothing;
      in the remaining case (the bird grounded in the frame a pipe scored)
      the best score was committed before the point was added. */
  lemma FrameCommitsBest(w: World, c: Canvas, r: real)
    requires Playable(c) && 0.0 <= r < 1.0
    requires w.mode == Playing
    ensures var v := Frame(w, c, r);
            v.mode == GameOver && (Collides(v.bird.y, v.pipes) || Gained(w.pipes) == 0) ==>
              v.best >= v.score && (v.best == w.best || v.best == v.score)
  {
  }

  /** When the bird grounds in a frame and no pipe overlaps it afterwards,
      gameOver runs before the sweep adds its points: the best score keeps
      the score from before the frame, and the points are never committed.
      The game then ends above the best score whenever the score had
      reached the best score and the sweep gained a point. */
  lemma LatePointUncommitted(w: World, c: Canvas, r: real)
    requires Playable(c) && 0.0 <= r < 1.0
    requires w.mode == Playing && Update(w.bird, c.height).grounded
    ensures var v := Frame(w, c, r);
            !Collides(v.bird.y, v.pipes) ==>
              && v.mode == GameOver
              && v.score == w.score + Gained(w.pipes)
              && v.best == (if w.score > w.best then w.score else w.best)
              && (w.score >= w.best && Gained(w.pipes) > 0 ==> v.score > v.best)
  {
  }

  /** A world that satisfies the invariant, whose next frame grounds the
      bird just as the only pipe is passed and overlaps nothing: the game
      ends with a score above the best score. */
  lemma LateScoreQuirk()
    ensures var c := Canvas(400, 600);
            var w := World(Playing, 0, 0, 100, [Pipe(5, 100, 250, PipeWidth, false)], Body(585.0, 0.0));
            var v := Frame(w, c, 0.0);
            Inv(w, c) && v.mode == GameOver && v.score == 1 && v.best == 0
  {
    var c := Canvas(400, 600);
    var p := Pipe(5, 100, 250, PipeWidth, false);
    var w := World(Playing, 0, 0, 100, [p], Body(585.0, 0.0));
    assert Fates([p]) == [Moved];
    assert Swept([p]) == [Visit(p)];
    assert Scores(p);
    assert Gained([p]) == 1;
    var v := PipeStep(BirdStep(w, c), c, 0.0);
    assert v.pipes == [Visit(p)];
    assert !Hits(v.bird.y, Visit(p));
  }

  /** Calling gameOver() twice, as a frame can, is the same as calling it once. */
  lemma EndGameIdempotent(w: World)
    ensures EndGame(EndGame(w)) == EndGame(w)
  {
  }

  /** A game that ends with some score and is restarted keeps that score as
      best score if it beat the previous best, and starts over from nothing. */
  lemma RestartAfterGameOver(w: World, c: Canvas)
    requires Playable(c)
    ensures var r := Restart(EndGame(w), c);
            && r.best == (if w.score > w.best then w.score else w.best)
            && r.mode == Start && r.score == 0 && r.frameCount == 0 && r.pipes == []
            && r.bird == Reset(c.height)
  {
  }
}
