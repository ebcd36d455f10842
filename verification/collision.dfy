/** checkCollision of flappy-bird.js as a predicate: the bird collides with
    a pipe when their horizontal extents overlap and the bird is not wholly
    inside the pipe's gap. The ground is the other collision source and is
    handled by the bird's floor clamp. */
module Collision {
  import opened Bird
  import opened Pipes

  /** The bird, with its centre at height y, overlaps pipe p. */
  predicate Hits(y: real, p: Pipe) {
    && X + Radius > p.x
    && X - Radius < p.x + p.width
    && (y - Radius as real < p.topHeight as real || y + Radius as real > p.bottomY as real)
  }

  /** Some pipe of ps overlaps the bird. */
  predicate Collides(y: real, ps: seq<Pipe>) {
    exists i :: 0 <= i < |ps| && Hits(y, ps[i])
  }

  /** A bird whose whole disc lies inside the gap of every pipe it overlaps
      horizontally does not collide, and conversely. */
  lemma SafeIffInsideGaps(y: real, ps: seq<Pipe>)
    ensures !Collides(y, ps) <==>
              forall i :: 0 <= i < |ps| && X + Radius > ps[i].x && X - Radius < ps[i].x + ps[i].width ==>
                ps[i].topHeight as real <= y - Radius as real && y + Radius as real <= ps[i].bottomY as real
  {
  }

  /** A bird centred at height 50 overlaps a pipe at x 70 whose top pipe
      reaches down to 70. */
  lemma HitsTopPipe()
    ensures Hits(50.0, Pipe(70, 70, 220, PipeWidth, false))
  {
  }

  /** The same bird clears a pipe at x 70 whose gap spans 20 to 170. */
  lemma ClearsGap()
    ensures !Hits(50.0, Pipe(70, 20, 170, PipeWidth, false))
  {
  }
}
