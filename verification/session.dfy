/** The running game of flappy-bird.js as one object: its fields are the
    script's globals and the bird's mutable fields, and its methods are the
    script's functions and event handlers. The methods for the script's
    top-level functions and handlers are proved to change the object exactly
    as the matching function of module Game changes a World, and to keep the
    invariant Game.Inv; the helpers they call are proved against the
    functions of modules Bird, Pipes and Collision. */
module Session {
  import opened Bird
  import opened Pipes
  import opened Collision
  import opened Game

  class GameSession {
    const canvas: Canvas
    var gameState: Mode
    var score: nat
    var bestScore: nat
    var frameCount: nat
    var pipes: seq<Pipe>
    var birdY: real
    var birdVelocity: real

    /** The object's state as a World value. */
    ghost function Snapshot(): World
      reads this
    {
      World(gameState, score, bestScore, frameCount, pipes, Body(birdY, birdVelocity))
    }

    ghost predicate Valid()
      reads this
    {
      Inv(Snapshot(), canvas)
    }

    /** Page load: the best score comes from storage, the bird rests at
        mid-height, and the game waits for its first activation. */
    constructor (width: nat, height: nat, storedBest: nat)
      requires Playable(Canvas(width, height))
      ensures canvas == Canvas(width, height)
      ensures Valid() && Snapshot() == Initial(canvas, storedBest)
    {
      canvas := Canvas(width, height);
      gameState := Start;
      score := 0;
      bestScore := storedBest;
      frameCount := 0;
      pipes := [];
      birdY := height as real / 2.0;
      birdVelocity := 0.0;
    }

    /** bird.update() */
    method BirdUpdate()
      requires Valid()
      modifies this
      ensures Valid() && Snapshot() == BirdStep(old(Snapshot()), canvas)
    {
      birdVelocity := birdVelocity + Gravity;
      birdY := birdY + birdVelocity;
      if birdY - Radius as real < 0.0 {
        birdY := Radius as real;
        birdVelocity := 0.0;
      }
      if birdY + Radius as real > canvas.height as real {
        birdY := (canvas.height - Radius) as real;
        birdVelocity := 0.0;
        if gameState == Playing {
          GameOver();
        }
      }
    }

    /** bird.jump() */
    method Jump()
      modifies this
      ensures Snapshot() == old(Snapshot()).(bird := Bird.Jump(old(Snapshot()).bird))
    {
      birdVelocity := JumpStrength;
    }

    /** bird.reset() */
    method BirdReset()
      requires Playable(canvas)
      modifies this
      ensures Snapshot() == old(Snapshot()).(bird := Reset(canvas.height))
    {
      birdY := canvas.height as real / 2.0;
      birdVelocity := 0.0;
    }

    /** createPipe(), with r the value Math.random() returned. */
    method CreatePipe(r: real)
      requires Playable(canvas) && 0.0 <= r < 1.0
      modifies this
      ensures Snapshot() == old(Snapshot()).(pipes := old(pipes) + [NewPipe(canvas.width, TopHeight(r, canvas.height))])
    {
      var minHeight := MinHeight;
      var maxHeight := canvas.height - PipeGap - GroundMargin;
      var topHeight := (r * (maxHeight - minHeight + 1) as real).Floor + minHeight;
      pipes := pipes + [Pipe(canvas.width, topHeight, topHeight + PipeGap, PipeWidth, false)];
    }

    /** updatePipes(), with r the value Math.random() returns if a pipe is
        created: the pipes sweep, the frame count goes up by one, and a pipe
        is created on every PipeFrequency-th frame. */
    method UpdatePipes(r: real)
      requires Valid() && 0.0 <= r < 1.0
      modifies this
      ensures Valid() && Snapshot() == PipeStep(old(Snapshot()), canvas, r)
    {
      ghost var w := Snapshot();
      SweepPipes();
      frameCount := frameCount + 1;
      if frameCount % PipeFrequency == 0 {
        CreatePipe(r);
      }
      assert Snapshot() == PipeStep(w, canvas, r);
    }

    /** The forEach of updatePipes: it runs once per index the array had
        when it began, and an index the removals have pushed past the end of
        the array is passed over. */
    method SweepPipes()
      modifies this`pipes, this`score
      ensures pipes == Swept(old(pipes)) && score == old(score) + Gained(old(pipes))
    {
      ghost var orig := pipes;
      ghost var fates := Fates(orig);
      // The pipes before orig[i] have been handled, the rest not yet.
      ghost var i := 0;
      var n := |pipes|;
      var index := 0;
      while index < n
        invariant 0 <= i <= |orig| && index <= n
        invariant |orig| - i <= n - index
        invariant i < |orig| ==> FateAt(orig, i) != Skipped
        invariant pipes == Remaining(orig, fates, i) + orig[i..]
        invariant |Remaining(orig, fates, i)| <= index
        invariant i < |orig| ==> |Remaining(orig, fates, i)| == index
        invariant score == old(score) + Gain(orig, fates, i)
        modifies this`pipes, this`score
      {
        if index < |pipes| {
          SweepAdvance(orig, i, pipes, index);
          VisitPipe(index);
          i := NextIndex(orig, i);
        }
        index := index + 1;
      }
      assert orig[i..] == [];
    }

    /** The callback updatePipes hands to forEach, run on the pipe now at
        index: the pipe moves left and may score, and is spliced out of the
        array when it has left the screen. */
    method VisitPipe(index: nat)
      requires index < |pipes|
      modifies this`pipes, this`score
      ensures var p := old(pipes)[index];
              && score == old(score) + (if Scores(p) then 1 else 0)
              && pipes == if OffScreen(Visit(p)) then old(pipes)[..index] + old(pipes)[index + 1..]
                          else old(pipes)[index := Visit(p)]
    {
      var pipe := pipes[index];
      pipe := pipe.(x := pipe.x - ScrollSpeed);
      if !pipe.passed && pipe.x + pipe.width < X - Radius {
        pipe := pipe.(passed := true);
        score := score + 1;
      }
      pipes := pipes[index := pipe];
      if pipe.x + pipe.width < 0 {
        pipes := pipes[..index] + pipes[index + 1..];
      }
    }

    /** checkCollision(): scans the pipes in order and stops at the first
        one the bird overlaps. */
    method CheckCollision() returns (hit: bool)
      ensures hit <==> exists k :: 0 <= k < |pipes| && Hits(birdY, pipes[k])
    {
      for k := 0 to |pipes|
        invariant forall j :: 0 <= j < k ==> !Hits(birdY, pipes[j])
      {
        var pipe := pipes[k];
        if X + Radius > pipe.x && X - Radius < pipe.x + pipe.width {
          if birdY - Radius as real < pipe.topHeight as real || birdY + Radius as real > pipe.bottomY as real {
            return true;
          }
        }
      }
      return false;
    }

    /** One call of gameLoop(), apart from drawing: only a frame in play
        changes anything. */
    method Step(r: real)
      requires Valid() && 0.0 <= r < 1.0
      modifies this
      ensures Valid() && Snapshot() == Frame(old(Snapshot()), canvas, r)
    {
      if gameState == Playing {
        BirdUpdate();
        UpdatePipes(r);
        var hit := CheckCollision();
        if hit {
          GameOver();
        }
      }
    }

    /** startGame() */
    method StartGame()
      requires Valid()
      modifies this
      ensures Valid() && Snapshot() == Begin(old(Snapshot()))
    {
      if gameState == Start {
        gameState := Playing;
        Jump();
      }
    }

    /** gameOver() */
    method GameOver()
      requires Valid()
      modifies this
      ensures Valid() && Snapshot() == EndGame(old(Snapshot()))
    {
      gameState := Mode.GameOver;
      if score > bestScore {
        bestScore := score;
      }
    }

    /** restartGame() */
    method RestartGame()
      requires Valid()
      modifies this
      ensures Valid() && Snapshot() == Restart(old(Snapshot()), canvas)
    {
      gameState := Start;
      score := 0;
      frameCount := 0;
      pipes := [];
      BirdReset();
    }

    /** The click handler of the canvas. */
    method Click()
      requires Valid()
      modifies this
      ensures Valid() && Snapshot() == Activate(old(Snapshot()))
    {
      if gameState == Start {
        StartGame();
      } else if gameState == Playing {
        Jump();
      }
    }

    /** The keydown handler of the document, given the key's code. */
    method KeyDown(code: string)
      requires Valid()
      modifies this
      ensures Valid()
      ensures Snapshot() == if code == "Space" then Activate(old(Snapshot())) else old(Snapshot())
    {
      if code == "Space" {
        if gameState == Start {
          StartGame();
        } else if gameState == Playing {
          Jump();
        }
      }
    }
  }
}
