/** The bird of flappy-bird.js: a disc at a fixed horizontal position that
    falls under gravity, is clamped to the play area, and flaps by having its
    vertical velocity overwritten. Coordinates grow downward from the top edge
    of the canvas; every quantity here is exact, so `real` stands for the
    script's numbers. */
module Bird {
  /** Horizontal position of the bird's centre; it never changes. */
  const X: int := 80
  const Radius: int := 15
  /** Added to the velocity on every update. */
  const Gravity: real := 0.5
  /** The velocity a flap sets, whatever the velocity was before. */
  const JumpStrength: real := -9.0

  /** The mutable part of the bird: the height of its centre and its velocity. */
  datatype Body = Body(y: real, velocity: real)

  /** The band in which the bird's centre lies when the whole disc is on a
      canvas of the given height. */
  predicate InBounds(y: real, height: int) {
    Radius as real <= y <= (height - Radius) as real
  }

  /** What one update produces: the new body, and whether the floor clamp
      fired (the script calls gameOver() then, when a game is being played). */
  datatype Motion = Motion(body: Body, grounded: bool)

  /** bird.update(): gravity is added to the velocity, the velocity to the
      position, then the ceiling clamp and the floor clamp are applied in
      that order. The ceiling clamp is silent; only the floor clamp grounds. */
  function Update(b: Body, height: int): (m: Motion)
    requires height >= 2 * Radius
    ensures InBounds(m.body.y, height)
    ensures m.grounded <==> b.y + b.velocity + Gravity > (height - Radius) as real
    ensures m.grounded ==> m.body == Body((height - Radius) as real, 0.0)
    ensures b.y + b.velocity + Gravity < Radius as real ==> m.body == Body(Radius as real, 0.0)
    ensures InBounds(b.y + b.velocity + Gravity, height) ==>
              m.body == Body(b.y + b.velocity + Gravity, b.velocity + Gravity)
  {
    var velocity := b.velocity + Gravity;
    var y := b.y + velocity;
    var (y, velocity) := if y - Radius as real < 0.0 then (Radius as real, 0.0) else (y, velocity);
    if y + Radius as real > height as real then
      Motion(Body((height - Radius) as real, 0.0), true)
    else
      Motion(Body(y, velocity), false)
  }

  /** bird.jump(): the velocity becomes the jump strength; the position stays. */
  function Jump(b: Body): (r: Body)
    ensures r.velocity == JumpStrength && r.y == b.y
  {
    b.(velocity := JumpStrength)
  }

  /** bird.reset(): back to rest at mid-height. */
  function Reset(height: int): (r: Body)
    requires height >= 2 * Radius
    ensures InBounds(r.y, height) && r.velocity == 0.0
    ensures r.y - Radius as real == (height - Radius) as real - r.y
  {
    Body(height as real / 2.0, 0.0)
  }

  /** The bird after a run of updates, each preceded by forcing its velocity
      to the next value of `forced` (a run of flaps when those are negative). */
  function Rise(b: Body, height: int, forced: seq<real>): (r: Body)
    requires height >= 2 * Radius
    decreases |forced|
  {
    if forced == [] then b
    else Rise(Update(b.(velocity := forced[0]), height).body, height, forced[1..])
  }

  /** However the velocity is forced, no run of updates takes the bird
      above the ceiling or below the floor. */
  lemma {:induction false} RiseStaysInBounds(b: Body, height: int, forced: seq<real>)
    requires height >= 2 * Radius
    requires InBounds(b.y, height)
    ensures InBounds(Rise(b, height, forced).y, height)
    decreases |forced|
  {
    if forced != [] {
      RiseStaysInBounds(Update(b.(velocity := forced[0]), height).body, height, forced[1..]);
    }
  }
}
