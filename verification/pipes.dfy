/** The pipes of flappy-bird.js: how one is created, how one frame moves,
    scores and removes them (updatePipes), and the spawn cadence.

    updatePipes walks the array with forEach and removes an off-screen pipe
    with splice from inside the callback. forEach fixes the number of
    iterations before the first call and re-reads the array at each index,
    so the pipe that slides into a removed pipe's index is not visited in
    that frame. Fates records, pipe by pipe, what one frame does to it. */
module Pipes {
  import Bird

  const PipeWidth: int := 60
  /** Vertical clearance between the top pipe and the bottom pipe. */
  const PipeGap: int := 150
  /** Frames between two spawned pipes. */
  const PipeFrequency: nat := 90
  const MinHeight: int := 50
  /** Space kept free between the bottom pipe's opening and the ground. */
  const GroundMargin: int := 100
  /** Pixels a visited pipe moves left per frame. */
  const ScrollSpeed: int := 3

  /** The bird's left edge: a pipe whose right edge is left of it is passed. */
  const BirdLeft: int := Bird.X - Bird.Radius

  datatype Pipe = Pipe(x: int, topHeight: int, bottomY: int, width: int, passed: bool)

  /** Largest top-pipe height on a canvas of the given height. */
  function MaxHeight(height: int): int {
    height - PipeGap - GroundMargin
  }

  /** The top height createPipe draws from the uniform number r in [0, 1):
      one of the MaxHeight - MinHeight + 1 integers from MinHeight up. */
  function TopHeight(r: real, height: int): (t: int)
    requires 0.0 <= r < 1.0
    requires MinHeight <= MaxHeight(height)
    ensures MinHeight <= t <= MaxHeight(height)
  {
    var span := MaxHeight(height) - MinHeight + 1;
    assert 0.0 <= r * span as real < span as real by {
      assert (1.0 - r) * span as real > 0.0;
    }
    (r * span as real).Floor + MinHeight
  }

  /** Every height of the range is drawn by some r: by (t - MinHeight) / span. */
  lemma TopHeightCovers(t: int, height: int)
    requires MinHeight <= t <= MaxHeight(height)
    ensures var span := MaxHeight(height) - MinHeight + 1;
            var r := (t - MinHeight) as real / span as real;
            0.0 <= r < 1.0 && TopHeight(r, height) == t
  {
    var span := MaxHeight(height) - MinHeight + 1;
    var a, b := (t - MinHeight) as real, span as real;
    assert 0.0 <= a < b;
    assert a / b * b == a;
  }

  /** The pipe createPipe pushes: at the right edge, not yet passed. */
  function NewPipe(canvasWidth: int, top: int): Pipe {
    Pipe(canvasWidth, top, top + PipeGap, PipeWidth, false)
  }

  /** What holds of every pipe on a canvas from its creation on. */
  predicate WellFormed(p: Pipe, canvasWidth: int, height: int) {
    && p.width == PipeWidth
    && p.bottomY == p.topHeight + PipeGap
    && MinHeight <= p.topHeight <= MaxHeight(height)
    && p.x <= canvasWidth
  }

  /** The callback's work on one visited pipe, before the removal test: the
      pipe moves left, and is marked passed once it is left of the bird. */
  function Visit(p: Pipe): (q: Pipe)
    ensures q.x == p.x - ScrollSpeed
    ensures q.topHeight == p.topHeight && q.bottomY == p.bottomY && q.width == p.width
    ensures q.passed <==> p.passed || q.x + q.width < BirdLeft
  {
    var moved := p.(x := p.x - ScrollSpeed);
    if !moved.passed && moved.x + moved.width < BirdLeft then moved.(passed := true) else moved
  }

  /** The visit of p adds one to the score. */
  predicate Scores(p: Pipe) {
    !p.passed && Visit(p).passed
  }

  predicate OffScreen(p: Pipe) {
    p.x + p.width < 0
  }

  /** What one updatePipes call does to a pipe: it is visited and stays,
      visited and removed, or not visited at all. */
  datatype Fate = Moved | Removed | Skipped

  /** The fate of the pipe at index i of the array updatePipes starts
      from. The callback at index k sees the pipe that is then at index k:
      while nothing has been removed that is pipe k itself, and once a pipe
      is spliced out every later pipe has moved down by one, so the pipe
      right after a removed one is never seen. */
  function FateAt(ps: seq<Pipe>, i: nat): Fate
    requires i < |ps|
    decreases i
  {
    if i > 0 && FateAt(ps, i - 1) == Removed then Skipped
    else if OffScreen(Visit(ps[i])) then Removed
    else Moved
  }

  /** The fates of the pipes, in array order, in one updatePipes call. */
  function Fates(ps: seq<Pipe>): (fs: seq<Fate>)
    ensures |fs| == |ps|
    ensures forall i :: 0 <= i < |ps| ==> fs[i] == FateAt(ps, i)
  {
    seq(|ps|, i requires 0 <= i < |ps| => FateAt(ps, i))
  }

  /** The same fates, found by walking the array from the front the way the
      iteration does: a pipe that stays lets the walk go on with the next
      one; a pipe that is removed makes the next one slide into its index,
      where it is passed over. */
  function Walk(ps: seq<Pipe>): (fs: seq<Fate>)
    ensures |fs| == |ps|
    decreases |ps|
  {
    if ps == [] then []
    else if !OffScreen(Visit(ps[0])) then [Moved] + Walk(ps[1..])
    else if |ps| == 1 then [Removed]
    else [Removed, Skipped] + Walk(ps[2..])
  }

  /** A pipe as the frame leaves it: visited unless it was skipped. */
  function Outcome(p: Pipe, f: Fate): Pipe {
    if f == Skipped then p else Visit(p)
  }

  /** Every pipe as the frame leaves it, removed ones included. */
  function Outcomes(ps: seq<Pipe>, fs: seq<Fate>): (qs: seq<Pipe>)
    requires |ps| == |fs|
    ensures |qs| == |ps|
    ensures forall i :: 0 <= i < |ps| ==>
              && qs[i].x == ps[i].x - (if fs[i] == Skipped then 0 else ScrollSpeed)
              && qs[i].topHeight == ps[i].topHeight && qs[i].bottomY == ps[i].bottomY
              && qs[i].width == ps[i].width
              && (ps[i].passed ==> qs[i].passed)
  {
    seq(|ps|, i requires 0 <= i < |ps| => Outcome(ps[i], fs[i]))
  }

  /** The array after the frame has handled the first n pipes: the outcomes
      of those not removed, in their original order. */
  function Remaining(ps: seq<Pipe>, fs: seq<Fate>, n: nat): (qs: seq<Pipe>)
    requires |ps| == |fs| && n <= |ps|
    ensures |qs| <= n
    decreases n
  {
    if n == 0 then []
    else Remaining(ps, fs, n - 1) + (if fs[n - 1] == Removed then [] else [Outcome(ps[n - 1], fs[n - 1])])
  }

  /** Score points earned on the first n pipes: one per visited pipe whose
      visit marked it passed. */
  function Gain(ps: seq<Pipe>, fs: seq<Fate>, n: nat): nat
    requires |ps| == |fs| && n <= |ps|
    decreases n
  {
    if n == 0 then 0
    else Gain(ps, fs, n - 1) + (if fs[n - 1] != Skipped && Scores(ps[n - 1]) then 1 else 0)
  }

  /** The pipe array after the loop of updatePipes. */
  function Swept(ps: seq<Pipe>): seq<Pipe> {
    Remaining(ps, Fates(ps), |ps|)
  }

  /** The points updatePipes adds to the score. */
  function Gained(ps: seq<Pipe>): nat {
    Gain(ps, Fates(ps), |ps|)
  }

  /** The first index the loop still has to handle after handling the
      pipe at i: the one after it, or the one after that when a removal
      made the next pipe slide into index i. */
  function NextIndex(ps: seq<Pipe>, i: nat): (j: nat)
    requires i < |ps|
    ensures i < j <= |ps|
  {
    if OffScreen(Visit(ps[i])) && i + 1 < |ps| then i + 2 else i + 1
  }

  /** One pass of the updatePipes loop. When the pipes before i are
      handled, the array holds the kept ones and then the untouched rest, and
      the loop is at the index just past the kept ones; the pipe there is
      ps[i]. Overwriting it with its visit, or splicing it out when the visit
      leaves it off screen, gives the array with the pipes before NextIndex
      handled, and the points grow by what the visit scored. */
  lemma {:induction false} SweepAdvance(ps: seq<Pipe>, i: nat, cur: seq<Pipe>, index: nat)
    requires i < |ps| && FateAt(ps, i) != Skipped
    requires cur == Remaining(ps, Fates(ps), i) + ps[i..] && index == |Remaining(ps, Fates(ps), i)|
    ensures index < |cur| && cur[index] == ps[i]
    ensures var j := NextIndex(ps, i);
            && (j < |ps| ==> FateAt(ps, j) != Skipped)
            && (if OffScreen(Visit(cur[index])) then cur[..index] + cur[index + 1..] else cur[index := Visit(cur[index])])
                 == Remaining(ps, Fates(ps), j) + ps[j..]
            && Gain(ps, Fates(ps), j) == Gain(ps, Fates(ps), i) + (if Scores(cur[index]) then 1 else 0)
            && |Remaining(ps, Fates(ps), j)| <= index + 1
            && (j < |ps| ==> |Remaining(ps, Fates(ps), j)| == index + 1)
  {
    var fs := Fates(ps);
    assert ps[i..] == [ps[i]] + ps[i + 1..];
    if OffScreen(Visit(ps[i])) {
      PassRemoved(ps, fs, i, cur, index);
      if i + 1 < |ps| {
        PassSkipped(ps, fs, i + 1);
        if i + 2 < |ps| {
          assert FateAt(ps, i + 2) != Skipped;
        }
      }
    } else {
      PassMoved(ps, fs, i, cur, index);
      if i + 1 < |ps| {
        assert FateAt(ps, i + 1) != Skipped;
      }
    }
  }

  /** The pass over a pipe that stays: it is overwritten by its visit, which
      joins the kept pipes. */
  lemma {:induction false} PassMoved(ps: seq<Pipe>, fs: seq<Fate>, i: nat, cur: seq<Pipe>, index: nat)
    requires |fs| == |ps| && i < |ps| && fs[i] == Moved
    requires cur == Remaining(ps, fs, i) + ps[i..] && index == |Remaining(ps, fs, i)|
    ensures cur[index := Visit(ps[i])] == Remaining(ps, fs, i + 1) + ps[i + 1..]
    ensures Gain(ps, fs, i + 1) == Gain(ps, fs, i) + (if Scores(ps[i]) then 1 else 0)
    ensures |Remaining(ps, fs, i + 1)| == index + 1
  {
    assert ps[i..] == [ps[i]] + ps[i + 1..];
    ReplaceAt(Remaining(ps, fs, i), ps[i], Visit(ps[i]), ps[i + 1..]);
  }

  /** The pass over a pipe that is removed: splicing it out leaves the kept
      pipes followed by the rest. */
  lemma {:induction false} PassRemoved(ps: seq<Pipe>, fs: seq<Fate>, i: nat, cur: seq<Pipe>, index: nat)
    requires |fs| == |ps| && i < |ps| && fs[i] == Removed
    requires cur == Remaining(ps, fs, i) + ps[i..] && index == |Remaining(ps, fs, i)|
    ensures cur[..index] + cur[index + 1..] == Remaining(ps, fs, i + 1) + ps[i + 1..]
    ensures Gain(ps, fs, i + 1) == Gain(ps, fs, i) + (if Scores(ps[i]) then 1 else 0)
    ensures |Remaining(ps, fs, i + 1)| == index
  {
    assert ps[i..] == [ps[i]] + ps[i + 1..];
    RemoveAt(Remaining(ps, fs, i), ps[i], ps[i + 1..]);
  }

  /** A pipe passed over goes from the rest to the kept pipes unchanged, so
      the array is the same and no point is gained. */
  lemma {:induction false} PassSkipped(ps: seq<Pipe>, fs: seq<Fate>, k: nat)
    requires |fs| == |ps| && k < |ps| && fs[k] == Skipped
    ensures Remaining(ps, fs, k + 1) + ps[k + 1..] == Remaining(ps, fs, k) + ps[k..]
    ensures Gain(ps, fs, k + 1) == Gain(ps, fs, k)
    ensures |Remaining(ps, fs, k + 1)| == |Remaining(ps, fs, k)| + 1
  {
    assert ps[k..] == [ps[k]] + ps[k + 1..];
    Regroup(Remaining(ps, fs, k), ps[k], ps[k + 1..]);
  }

  /** Overwriting the element that follows a prefix. */
  lemma ReplaceAt<T>(front: seq<T>, x: T, y: T, back: seq<T>)
    ensures (front + ([x] + back))[|front| := y] == (front + [y]) + back
  {
  }

  /** Splicing out the element that follows a prefix. */
  lemma RemoveAt<T>(front: seq<T>, x: T, back: seq<T>)
    ensures var s := front + ([x] + back);
            s[..|front|] + s[|front| + 1..] == front + back
  {
    var s := front + ([x] + back);
    assert s[..|front|] == front;
    assert s[|front| + 1..] == back;
  }

  /** Moving the element that follows a prefix into the prefix. */
  lemma Regroup<T>(front: seq<T>, x: T, back: seq<T>)
    ensures front + ([x] + back) == (front + [x]) + back
  {
  }

  /** After a first pipe that stays, the fates of the rest are those of
      the array without it. */
  lemma {:induction false} FateAtAfterMoved(ps: seq<Pipe>, i: nat)
    requires 1 <= i < |ps| && FateAt(ps, 0) == Moved
    ensures FateAt(ps, i) == FateAt(ps[1..], i - 1)
    decreases i
  {
    if i > 1 {
      FateAtAfterMoved(ps, i - 1);
    }
  }

  /** After a first pipe that is removed, and the second that is passed
      over, the fates of the rest are those of the array without both. */
  lemma {:induction false} FateAtAfterRemoved(ps: seq<Pipe>, i: nat)
    requires 2 <= i < |ps| && FateAt(ps, 0) == Removed
    ensures FateAt(ps, i) == FateAt(ps[2..], i - 2)
    decreases i
  {
    if i > 2 {
      FateAtAfterRemoved(ps, i - 1);
    }
  }

  /** The rule by index and the walk from the front give the same fates. */
  lemma {:induction false} WalkAgrees(ps: seq<Pipe>)
    ensures Walk(ps) == Fates(ps)
    decreases |ps|
  {
    if ps == [] {
    } else if !OffScreen(Visit(ps[0])) {
      WalkAgrees(ps[1..]);
      forall i | 1 <= i < |ps|
        ensures Fates(ps)[i] == Fates(ps[1..])[i - 1]
      {
        FateAtAfterMoved(ps, i);
      }
      assert Walk(ps) == [Moved] + Fates(ps[1..]);
    } else if |ps| > 1 {
      WalkAgrees(ps[2..]);
      forall i | 2 <= i < |ps|
        ensures Fates(ps)[i] == Fates(ps[2..])[i - 2]
      {
        FateAtAfterRemoved(ps, i);
      }
      assert Walk(ps) == [Removed, Skipped] + Fates(ps[2..]);
    }
  }

  /** The sweep leaves no pipe off screen except one it passed over: every
      pipe left that is off screen is, unchanged, a pipe whose fate was
      Skipped. */
  lemma {:induction false} RemainingOnScreenOrSkipped(ps: seq<Pipe>, n: nat)
    requires n <= |ps|
    ensures forall q :: q in Remaining(ps, Fates(ps), n) && OffScreen(q) ==>
              exists k :: 0 <= k < n && FateAt(ps, k) == Skipped && q == ps[k]
    decreases n
  {
    if n > 0 {
      RemainingOnScreenOrSkipped(ps, n - 1);
    }
  }

  /** Two pipes that both leave the screen: the first is spliced out, the
      second slides into its index and is not visited, so it stays in the
      array, unmoved and off screen, until the next frame. */
  lemma SpliceSkipsNext()
    ensures var first := Pipe(-60, 100, 250, PipeWidth, true);
            var second := Pipe(-61, 120, 270, PipeWidth, true);
            && Fates([first, second]) == [Removed, Skipped]
            && Swept([first, second]) == [second]
            && OffScreen(second)
  {
    var first := Pipe(-60, 100, 250, PipeWidth, true);
    var second := Pipe(-61, 120, 270, PipeWidth, true);
    assert FateAt([first, second], 0) == Removed;
    assert FateAt([first, second], 1) == Skipped;
    assert Fates([first, second]) == [Removed, Skipped];
    assert Remaining([first, second], [Removed, Skipped], 1) == [];
  }

  /** Number of pipes among the first n that are marked passed. */
  function PassedCount(ps: seq<Pipe>, n: nat): (k: nat)
    requires n <= |ps|
    ensures k <= n
    decreases n
  {
    if n == 0 then 0 else PassedCount(ps, n - 1) + (if ps[n - 1].passed then 1 else 0)
  }

  /** The score grows by exactly the number of passed flags the frame sets:
      counting the removed pipes too, the passed flags after the frame are
      those before it plus the points gained. */
  lemma {:induction false} GainCountsFlips(ps: seq<Pipe>, fs: seq<Fate>, n: nat)
    requires |ps| == |fs| && n <= |ps|
    ensures PassedCount(Outcomes(ps, fs), n) == PassedCount(ps, n) + Gain(ps, fs, n)
    decreases n
  {
    if n > 0 {
      GainCountsFlips(ps, fs, n - 1);
    }
  }

  /** Pipes that were well formed stay well formed through a frame. */
  lemma {:induction false} RemainingWellFormed(ps: seq<Pipe>, fs: seq<Fate>, n: nat, canvasWidth: int, height: int)
    requires |ps| == |fs| && n <= |ps|
    ensures (forall p :: p in ps ==> WellFormed(p, canvasWidth, height)) ==>
              forall q :: q in Remaining(ps, fs, n) ==> WellFormed(q, canvasWidth, height)
    decreases n
  {
    if n > 0 {
      RemainingWellFormed(ps, fs, n - 1, canvasWidth, height);
      assert ps[n - 1] in ps;
    }
  }

  /** A pipe after n visits (skipped frames leave a pipe as it is, so these
      are all the changes a pipe sees in its life). */
  function Visited(p: Pipe, n: nat): Pipe
    decreases n
  {
    if n == 0 then p else Visit(Visited(p, n - 1))
  }

  /** After n visits a pipe has moved 3n to the left, and is passed exactly
      when it was passed already or its right edge is now left of the bird. */
  lemma {:induction false} VisitedPosition(p: Pipe, n: nat)
    ensures Visited(p, n).x == p.x - ScrollSpeed * n
    ensures Visited(p, n).width == p.width
    ensures n > 0 ==> (Visited(p, n).passed <==> p.passed || p.x - ScrollSpeed * n + p.width < BirdLeft)
    ensures p.passed ==> Visited(p, n).passed
    decreases n
  {
    if n > 0 {
      VisitedPosition(p, n - 1);
    }
  }

  /** Points one pipe earns over n visits. */
  function PointsOver(p: Pipe, n: nat): nat
    decreases n
  {
    if n == 0 then 0 else PointsOver(p, n - 1) + (if Scores(Visited(p, n - 1)) then 1 else 0)
  }

  /** Exactly-once scoring: over any number of visits a pipe earns one point
      if its passed flag went from false to true, and none otherwise. */
  lemma {:induction false} ScoredOnce(p: Pipe, n: nat)
    ensures PointsOver(p, n) == if !p.passed && Visited(p, n).passed then 1 else 0
    decreases n
  {
    if n > 0 {
      ScoredOnce(p, n - 1);
      VisitedPosition(p, n - 1);
    }
  }

  /** The new frame count after an updatePipes call that started at fc
      spawns a pipe. */
  predicate Spawns(fc: nat) {
    (fc + 1) % PipeFrequency == 0
  }

  /** Pipes spawned by the first n updatePipes calls after a restart. */
  function SpawnsUpTo(n: nat): nat
    decreases n
  {
    if n == 0 then 0 else SpawnsUpTo(n - 1) + (if Spawns(n - 1) then 1 else 0)
  }

  /** From frame count 0, pipes appear at frames 90, 180, ...: one per
      full period. */
  lemma {:induction false} SpawnCadence(n: nat)
    ensures SpawnsUpTo(n) == n / PipeFrequency
    decreases n
  {
    if n > 0 {
      SpawnCadence(n - 1);
    }
  }
}
