/**
 * The game's mutable state and the handlers that change it: key presses,
 * the per-frame update, obstacle spawning, and starting, pausing and ending
 * a game. Drawing is not modelled; the sine track is the parameter `curve`,
 * the track's height at argument `x + phaseShift` for the current amplitude
 * and frequency.
 */
module Game {
  import opened Rules

  /** Where the marker sits on the track: its column's sample when the column is drawn, else unchanged. */
  function MarkerY(curve: real -> real, cx: int, phase: real, prevY: real): (y: real)
  {
    if 0 <= cx < CanvasWidth then curve(cx as real + phase) else prevY
  }

  /**
   * The track-drawing loop of a frame: every column 0 .. 799 is sampled, and
   * the one equal to the marker's (integer) column sets the marker's height.
   */
  method TraceWave(curve: real -> real, cx: int, phase: real, prevY: real) returns (markerY: real)
    ensures markerY == MarkerY(curve, cx, phase, prevY)
  {
    markerY := prevY;
    var x := 0;
    while x < CanvasWidth
      invariant 0 <= x <= CanvasWidth
      invariant markerY == if 0 <= cx < x then curve(cx as real + phase) else prevY
    {
      var y := curve(x as real + phase);
      if x == cx {
        markerY := y;
      }
      x := x + 1;
    }
  }

  class WaveGame {
    var characterX: int
    var characterY: real
    var score: nat
    var phaseShift: real
    var isPlaying: bool
    var obstacles: seq<Obstacle>

    /** The marker is on its track and every obstacle is on the canvas with its drawn shape. */
    ghost predicate Valid()
      reads this
    {
      OnTrack(characterX) && AllWellFormed(obstacles)
    }

    /** The state when the page loads; `initialPhase` is the phase slider's value. */
    constructor (initialPhase: real)
      ensures Valid()
      ensures characterX == StartX && characterY == 0.0 && score == 0
      ensures phaseShift == initialPhase && !isPlaying && obstacles == []
    {
      characterX := StartX;
      characterY := 0.0;
      score := 0;
      phaseShift := initialPhase;
      isPlaying := false;
      obstacles := [];
    }

    /** The key-down handler: one step right or left, never past either edge. */
    method MoveCharacter(key: string)
      requires Valid()
      modifies this`characterX
      ensures Valid()
      ensures characterX == Move(old(characterX), key)
    {
      if key == "ArrowRight" && characterX < CanvasWidth {
        characterX := characterX + StepX;
      } else if key == "ArrowLeft" && characterX > 0 {
        characterX := characterX - StepX;
      }
      MoveStaysOnTrack(old(characterX), key);
    }

    /**
     * The spawn timer: a new obstacle at the top edge. `x`, `width` and
     * `height` stand for the random draws, within the ranges they come from.
     */
    method GenerateObstacle(x: real, width: real, height: real)
      requires Valid()
      requires 0.0 <= x < CanvasWidth as real
      requires 10.0 <= width < 40.0 && 10.0 <= height < 40.0
      modifies this`obstacles
      ensures Valid()
      ensures obstacles == old(obstacles) + [Obstacle(x, 0, width, height)]
    {
      obstacles := obstacles + [Obstacle(x, 0, width, height)];
    }

    /** Game over: the loop stops at the end of the current frame. */
    method EndGame()
      modifies this`isPlaying
      ensures !isPlaying
      ensures Valid() == old(Valid())
    {
      isPlaying := false;
    }

    /**
     * The frame's walk over the obstacles: each visited one falls, is spliced
     * out past the bottom edge, and ends the game when it meets the marker.
     * The walk runs to the length the list had at the start.
     */
    method AdvanceObstacles()
      requires Valid()
      modifies this`obstacles, this`isPlaying
      ensures Valid()
      ensures obstacles == ObstaclePass(old(obstacles), characterX, characterY).survivors
      ensures isPlaying == (old(isPlaying) && !ObstaclePass(old(obstacles), characterX, characterY).hit)
      ensures |obstacles| <= |old(obstacles)|
    {
      ghost var start := obstacles;
      ghost var hitSoFar := false;
      var n := |obstacles|;
      var i := 0;
      while i < n
        invariant 0 <= i <= n && |obstacles| <= n
        invariant Walk(obstacles, i, n, characterX, characterY).survivors
               == Walk(start, 0, n, characterX, characterY).survivors
        invariant Walk(start, 0, n, characterX, characterY).hit
               == (hitSoFar || Walk(obstacles, i, n, characterX, characterY).hit)
        invariant isPlaying == (old(isPlaying) && !hitSoFar)
      {
        if i < |obstacles| {
          var o := obstacles[i];
          o := o.(y := o.y + FallSpeed);
          obstacles := obstacles[i := o];
          if o.y > CanvasHeight {
            obstacles := obstacles[..i] + obstacles[i + 1..];
          }
          if Collides(characterX, characterY, o) {
            EndGame();
            hitSoFar := true;
          }
        }
        i := i + 1;
      }
      PassKeepsWellFormed(start, characterX, characterY);
      PassShrinks(start, characterX, characterY);
    }

    /**
     * One animation frame: place the marker on the track, run the obstacle
     * pass, and, only if the game is still on, scroll the track and score.
     * `scheduled` says whether another frame is requested.
     */
    method Frame(curve: real -> real) returns (scheduled: bool)
      requires Valid()
      modifies this`characterY, this`obstacles, this`isPlaying, this`phaseShift, this`score
      ensures Valid()
      ensures characterY == MarkerY(curve, characterX, old(phaseShift), old(characterY))
      ensures obstacles == ObstaclePass(old(obstacles), characterX, characterY).survivors
      ensures isPlaying == (old(isPlaying) && !ObstaclePass(old(obstacles), characterX, characterY).hit)
      ensures score == if isPlaying then old(score) + 1 else old(score)
      ensures phaseShift == if isPlaying then old(phaseShift) - 2.0 else old(phaseShift)
      ensures scheduled == isPlaying
    {
      characterY := TraceWave(curve, characterX, phaseShift, characterY);
      AdvanceObstacles();
      if isPlaying {
        phaseShift := phaseShift - 2.0;
        score := score + 1;
      }
      scheduled := isPlaying;
    }

    /** The state assignments at the top of a start: playing, no obstacles, zero score, marker home. */
    method Reset()
      requires Valid()
      modifies this`isPlaying, this`obstacles, this`score, this`characterX
      ensures Valid()
      ensures isPlaying && obstacles == [] && score == 0 && characterX == StartX
    {
      isPlaying := true;
      obstacles := [];
      score := 0;
      characterX := StartX;
    }

    /**
     * Starting a game resets the state and draws the first frame at once;
     * with no obstacles that frame cannot end the game, so it scores 1.
     */
    method StartGame(curve: real -> real)
      requires Valid()
      modifies this
      ensures Valid()
      ensures isPlaying && obstacles == [] && score == 1 && characterX == StartX
      ensures characterY == curve(StartX as real + old(phaseShift))
      ensures phaseShift == old(phaseShift) - 2.0
    {
      Reset();
      var scheduled := Frame(curve);
    }

    /**
     * The start/pause button: from a stopped game it starts a new one; while
     * playing it only clears the playing flag.
     */
    method PressStartButton(curve: real -> real)
      requires Valid()
      modifies this
      ensures Valid()
      ensures old(isPlaying) ==> !isPlaying && score == old(score) && obstacles == old(obstacles)
                                 && characterX == old(characterX) && characterY == old(characterY)
                                 && phaseShift == old(phaseShift)
      ensures !old(isPlaying) ==> isPlaying && obstacles == [] && score == 1 && characterX == StartX
                                  && characterY == curve(StartX as real + old(phaseShift))
                                  && phaseShift == old(phaseShift) - 2.0
    {
      if !isPlaying {
        StartGame(curve);
      } else {
        isPlaying := false;
      }
    }
  }
}
