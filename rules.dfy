/**
 * The rules of the wave-rider game as pure functions: how a key press moves
 * the marker, when the marker's box meets an obstacle, and what one frame's
 * obstacle pass (a `forEach` that splices while it walks) does to the list.
 */
module Rules {

  const CanvasWidth: int := 800
  const CanvasHeight: int := 400
  /** Pixels the marker moves per arrow key. */
  const StepX: int := 10
  /** Pixels an obstacle falls per frame. */
  const FallSpeed: int := 2
  /** Side of the marker's square collision box. */
  const MarkerSize: int := 10
  /** Column the marker starts at, and is reset to on every start. */
  const StartX: int := 50

  /** A falling rectangle; `y` only ever changes in steps of FallSpeed from 0. */
  datatype Obstacle = Obstacle(x: real, y: int, width: real, height: real)

  /** The marker's column: on the canvas and on the 10-pixel grid. */
  predicate OnTrack(cx: int)
  {
    0 <= cx <= CanvasWidth && cx % StepX == 0
  }

  /** Width and height drawn from 10 + [0, 30), column from [0, 800). */
  predicate Shaped(o: Obstacle)
  {
    0.0 <= o.x < CanvasWidth as real &&
    10.0 <= o.width < 40.0 &&
    10.0 <= o.height < 40.0
  }

  /** Still on the canvas and on the fall grid. */
  predicate OnScreen(o: Obstacle)
  {
    0 <= o.y <= CanvasHeight && o.y % FallSpeed == 0
  }

  predicate WellFormed(o: Obstacle)
  {
    Shaped(o) && OnScreen(o)
  }

  predicate AllWellFormed(s: seq<Obstacle>)
  {
    forall i :: 0 <= i < |s| ==> WellFormed(s[i])
  }

  // ---------------------------------------------------------------------
  // Key handling

  /** The marker column after one key press. */
  function Move(cx: int, key: string): (r: int)
    ensures r == cx + StepX <==> key == "ArrowRight" && cx < CanvasWidth
    ensures r == cx - StepX <==> key == "ArrowLeft" && cx > 0
    ensures r == cx <==> !(key == "ArrowRight" && cx < CanvasWidth) && !(key == "ArrowLeft" && cx > 0)
  {
    if key == "ArrowRight" && cx < CanvasWidth then cx + StepX
    else if key == "ArrowLeft" && cx > 0 then cx - StepX
    else cx
  }

  /** The marker column after a sequence of key presses, in order. */
  function MoveAll(cx: int, keys: seq<string>): (r: int)
    decreases |keys|
  {
    if keys == [] then cx else MoveAll(Move(cx, keys[0]), keys[1..])
  }

  /** `k` presses of the same key. */
  function Presses(key: string, k: nat): (r: seq<string>)
    ensures |r| == k
  {
    if k == 0 then [] else [key] + Presses(key, k - 1)
  }

  lemma MoveStaysOnTrack(cx: int, key: string)
    requires OnTrack(cx)
    ensures OnTrack(Move(cx, key))
  {
  }

  /** No key sequence takes the marker off the canvas or off its grid. */
  lemma {:induction false} MovesStayOnTrack(cx: int, keys: seq<string>)
    requires OnTrack(cx)
    ensures OnTrack(MoveAll(cx, keys))
    decreases |keys|
  {
    if keys != [] {
      MoveStaysOnTrack(cx, keys[0]);
      MovesStayOnTrack(Move(cx, keys[0]), keys[1..]);
    }
  }

  lemma {:induction false} RightPresses(cx: int, k: nat)
    requires 0 <= cx && cx + StepX * k <= CanvasWidth
    ensures MoveAll(cx, Presses("ArrowRight", k)) == cx + StepX * k
    decreases k
  {
    if k > 0 {
      var keys := Presses("ArrowRight", k);
      assert keys[0] == "ArrowRight" && keys[1..] == Presses("ArrowRight", k - 1);
      RightPresses(cx + StepX, k - 1);
    }
  }

  lemma {:induction false} LeftPresses(cx: int, k: nat)
    requires cx <= CanvasWidth && cx - StepX * k >= 0
    ensures MoveAll(cx, Presses("ArrowLeft", k)) == cx - StepX * k
    decreases k
  {
    if k > 0 {
      var keys := Presses("ArrowLeft", k);
      assert keys[0] == "ArrowLeft" && keys[1..] == Presses("ArrowLeft", k - 1);
      LeftPresses(cx - StepX, k - 1);
    }
  }

  /** From the start column, the columns some key sequence reaches are exactly the on-track ones. */
  lemma ReachableColumns(target: int)
    ensures (exists keys :: MoveAll(StartX, keys) == target) <==> OnTrack(target)
  {
    if OnTrack(target) {
      if target >= StartX {
        var k := (target - StartX) / StepX;
        assert StepX * k == target - StartX;
        RightPresses(StartX, k);
        assert MoveAll(StartX, Presses("ArrowRight", k)) == target;
      } else {
        var k := (StartX - target) / StepX;
        assert StepX * k == StartX - target;
        LeftPresses(StartX, k);
        assert MoveAll(StartX, Presses("ArrowLeft", k)) == target;
      }
    }
    forall keys | MoveAll(StartX, keys) == target
      ensures OnTrack(target)
    {
      MovesStayOnTrack(StartX, keys);
    }
  }

  // ---------------------------------------------------------------------
  // Collision

  /** The four strict inequalities the frame tests between the marker box and an obstacle. */
  predicate Collides(cx: int, cy: real, o: Obstacle)
  {
    cx as real < o.x + o.width &&
    cx as real + MarkerSize as real > o.x &&
    cy < o.y as real + o.height &&
    cy + MarkerSize as real > o.y as real
  }

  /** Point (px, py) lies strictly inside the marker's box. */
  predicate InMarker(cx: int, cy: real, px: real, py: real)
  {
    cx as real < px < cx as real + MarkerSize as real &&
    cy < py < cy + MarkerSize as real
  }

  /** Point (px, py) lies strictly inside the obstacle. */
  predicate InObstacle(o: Obstacle, px: real, py: real)
  {
    o.x < px < o.x + o.width &&
    o.y as real < py < o.y as real + o.height
  }

  function Max(a: real, b: real): (r: real)
    ensures r >= a && r >= b && (r == a || r == b)
  {
    if a < b then b else a
  }

  function Min(a: real, b: real): (r: real)
    ensures r <= a && r <= b && (r == a || r == b)
  {
    if a < b then a else b
  }

  /** The collision test holds exactly when the two boxes share an interior point. */
  lemma CollidesIffOverlap(cx: int, cy: real, o: Obstacle)
    requires o.width > 0.0 && o.height > 0.0
    ensures Collides(cx, cy, o) <==> exists px, py :: InMarker(cx, cy, px, py) && InObstacle(o, px, py)
  {
    if Collides(cx, cy, o) {
      var px := (Max(cx as real, o.x) + Min(cx as real + MarkerSize as real, o.x + o.width)) / 2.0;
      var py := (Max(cy, o.y as real) + Min(cy + MarkerSize as real, o.y as real + o.height)) / 2.0;
      assert InMarker(cx, cy, px, py) && InObstacle(o, px, py);
    }
  }

  // ---------------------------------------------------------------------
  // The obstacle pass

  /** What a pass leaves behind, and whether any visited obstacle hit the marker. */
  datatype PassResult = PassResult(survivors: seq<Obstacle>, hit: bool)

  /** An obstacle one frame further down: only its `y` changes. */
  function Fallen(o: Obstacle): (r: Obstacle)
    ensures r.y == o.y + FallSpeed && r.(y := o.y) == o
  {
    o.(y := o.y + FallSpeed)
  }

  /**
   * One callback of the `forEach` at index `i`: the obstacle there falls, is
   * spliced out when it is past the bottom edge, and is tested for a
   * collision in its new position either way.
   */
  function Visit(s: seq<Obstacle>, i: nat, cx: int, cy: real): (r: PassResult)
    requires i < |s|
    ensures r.hit == Collides(cx, cy, Fallen(s[i]))
    ensures |r.survivors| == |s| - 1 <==> Fallen(s[i]).y > CanvasHeight
    ensures |r.survivors| == |s| <==> Fallen(s[i]).y <= CanvasHeight
  {
    var o := Fallen(s[i]);
    PassResult(if o.y > CanvasHeight then s[..i] + s[i + 1..] else s[i := o], Collides(cx, cy, o))
  }

  /**
   * The `forEach` from index `i` up to the length `n` it saw when it began;
   * an index no longer inside the shrunken list is skipped.
   */
  function Walk(s: seq<Obstacle>, i: nat, n: nat, cx: int, cy: real): (r: PassResult)
    decreases n - i
  {
    if i >= n then PassResult(s, false)
    else if i >= |s| then Walk(s, i + 1, n, cx, cy)
    else
      var v := Visit(s, i, cx, cy);
      var rest := Walk(v.survivors, i + 1, n, cx, cy);
      PassResult(rest.survivors, v.hit || rest.hit)
  }

  /** A whole frame's obstacle pass. */
  function ObstaclePass(s: seq<Obstacle>, cx: int, cy: real): (r: PassResult)
  {
    Walk(s, 0, |s|, cx, cy)
  }

  /**
   * The same pass stated over the original list, element by element: after
   * an obstacle is removed, the next one is kept as it is and not tested.
   */
  function Sweep(s: seq<Obstacle>, skip: bool, cx: int, cy: real): (r: PassResult)
    decreases |s|
  {
    if s == [] then PassResult([], false)
    else if skip then
      var r := Sweep(s[1..], false, cx, cy);
      PassResult([s[0]] + r.survivors, r.hit)
    else
      var o := Fallen(s[0]);
      var gone := o.y > CanvasHeight;
      var r := Sweep(s[1..], gone, cx, cy);
      PassResult(if gone then r.survivors else [o] + r.survivors, Collides(cx, cy, o) || r.hit)
  }

  /** Past the end of the list every remaining index is skipped. */
  lemma {:induction false} WalkPastEnd(s: seq<Obstacle>, i: nat, n: nat, cx: int, cy: real)
    requires i >= |s|
    ensures Walk(s, i, n, cx, cy) == PassResult(s, false)
    decreases n - i
  {
    if i < n {
      WalkPastEnd(s, i + 1, n, cx, cy);
    }
  }

  /** One step of the walk: visit index `i`, then walk on from `i + 1`. */
  lemma WalkStep(s: seq<Obstacle>, i: nat, n: nat, cx: int, cy: real)
    requires i < n && i < |s|
    ensures Walk(s, i, n, cx, cy)
         == PassResult(Walk(Visit(s, i, cx, cy).survivors, i + 1, n, cx, cy).survivors,
                       Visit(s, i, cx, cy).hit || Walk(Visit(s, i, cx, cy).survivors, i + 1, n, cx, cy).hit)
  {
  }

  /** The visit at the seam between a visited prefix and the rest of the list. */
  lemma VisitAtSeam(done: seq<Obstacle>, rest: seq<Obstacle>, cx: int, cy: real)
    requires rest != []
    ensures Visit(done + rest, |done|, cx, cy).hit == Collides(cx, cy, Fallen(rest[0]))
    ensures Visit(done + rest, |done|, cx, cy).survivors
         == if Fallen(rest[0]).y > CanvasHeight then done + rest[1..] else done + [Fallen(rest[0])] + rest[1..]
  {
    var s := done + rest;
    var i := |done|;
    assert s[i] == rest[0];
    assert s[..i] == done && s[i + 1..] == rest[1..];
    assert s[i := Fallen(rest[0])] == done + [Fallen(rest[0])] + rest[1..];
  }

  /** The index walk, started where `done` ends, finishes as the sweep of `rest`. */
  lemma {:induction false} WalkFrom(done: seq<Obstacle>, rest: seq<Obstacle>, n: nat, cx: int, cy: real)
    requires |done| + |rest| <= n
    ensures Walk(done + rest, |done|, n, cx, cy)
         == PassResult(done + Sweep(rest, false, cx, cy).survivors, Sweep(rest, false, cx, cy).hit)
    decreases n - |done|, 1
  {
    if rest == [] {
      assert done + rest == done;
      WalkPastEnd(done, |done|, n, cx, cy);
    } else if Fallen(rest[0]).y > CanvasHeight {
      WalkFromRemoved(done, rest, n, cx, cy);
    } else {
      WalkFromKept(done, rest, n, cx, cy);
    }
  }

  /** The step of `WalkFrom` where the obstacle at the seam falls past the bottom edge. */
  lemma {:induction false} WalkFromRemoved(done: seq<Obstacle>, rest: seq<Obstacle>, n: nat, cx: int, cy: real)
    requires |done| + |rest| <= n && rest != [] && Fallen(rest[0]).y > CanvasHeight
    ensures Walk(done + rest, |done|, n, cx, cy)
         == PassResult(done + Sweep(rest, false, cx, cy).survivors, Sweep(rest, false, cx, cy).hit)
    decreases n - |done|, 0
  {
    var o := Fallen(rest[0]);
    var v := Visit(done + rest, |done|, cx, cy);
    var after := Walk(v.survivors, |done| + 1, n, cx, cy);
    var tail := Sweep(rest[1..], true, cx, cy);
    assert v == PassResult(done + rest[1..], Collides(cx, cy, o)) by {
      VisitAtSeam(done, rest, cx, cy);
    }
    assert Walk(done + rest, |done|, n, cx, cy) == PassResult(after.survivors, v.hit || after.hit) by {
      WalkStep(done + rest, |done|, n, cx, cy);
    }
    assert Sweep(rest, false, cx, cy) == PassResult(tail.survivors, Collides(cx, cy, o) || tail.hit);
    assert after == PassResult(done + tail.survivors, tail.hit) by {
      if |rest| == 1 {
        assert done + rest[1..] == done;
        WalkPastEnd(done, |done| + 1, n, cx, cy);
        assert tail == PassResult([], false);
        assert done + [] == done;
      } else {
        // The obstacle that slid into the freed slot is passed over unchanged.
        var done' := done + [rest[1]];
        var tail2 := Sweep(rest[2..], false, cx, cy);
        assert done + rest[1..] == done' + rest[2..];
        WalkFrom(done', rest[2..], n, cx, cy);
        assert rest[1..][1..] == rest[2..];
        assert tail == PassResult([rest[1]] + tail2.survivors, tail2.hit);
        assert done' + tail2.survivors == done + tail.survivors;
      }
    }
  }

  /** The step of `WalkFrom` where the obstacle at the seam falls and stays. */
  lemma {:induction false} WalkFromKept(done: seq<Obstacle>, rest: seq<Obstacle>, n: nat, cx: int, cy: real)
    requires |done| + |rest| <= n && rest != [] && Fallen(rest[0]).y <= CanvasHeight
    ensures Walk(done + rest, |done|, n, cx, cy)
         == PassResult(done + Sweep(rest, false, cx, cy).survivors, Sweep(rest, false, cx, cy).hit)
    decreases n - |done|, 0
  {
    var o := Fallen(rest[0]);
    var done' := done + [o];
    var v := Visit(done + rest, |done|, cx, cy);
    var after := Walk(v.survivors, |done| + 1, n, cx, cy);
    var tail := Sweep(rest[1..], false, cx, cy);
    assert v == PassResult(done' + rest[1..], Collides(cx, cy, o)) by {
      VisitAtSeam(done, rest, cx, cy);
    }
    assert after == PassResult(done' + tail.survivors, tail.hit) by {
      WalkFrom(done', rest[1..], n, cx, cy);
    }
    assert Walk(done + rest, |done|, n, cx, cy) == PassResult(after.survivors, v.hit || after.hit) by {
      WalkStep(done + rest, |done|, n, cx, cy);
    }
    assert Sweep(rest, false, cx, cy) == PassResult([o] + tail.survivors, Collides(cx, cy, o) || tail.hit);
    assert done' + tail.survivors == done + ([o] + tail.survivors);
  }

  /** The frame's index walk and the element-by-element sweep agree. */
  lemma PassIsSweep(s: seq<Obstacle>, cx: int, cy: real)
    ensures ObstaclePass(s, cx, cy) == Sweep(s, false, cx, cy)
  {
    WalkFrom([], s, |s|, cx, cy);
    assert [] + s == s;
  }

  lemma {:induction false} SweepShrinks(s: seq<Obstacle>, skip: bool, cx: int, cy: real)
    ensures |Sweep(s, skip, cx, cy).survivors| <= |s|
    decreases |s|
  {
    if s != [] {
      SweepShrinks(s[1..], false, cx, cy);
      SweepShrinks(s[1..], Fallen(s[0]).y > CanvasHeight, cx, cy);
    }
  }

  lemma {:induction false} SweepKeepsWellFormed(s: seq<Obstacle>, skip: bool, cx: int, cy: real)
    requires AllWellFormed(s)
    ensures AllWellFormed(Sweep(s, skip, cx, cy).survivors)
    decreases |s|
  {
    if s != [] {
      assert WellFormed(s[0]);
      assert AllWellFormed(s[1..]) by {
        forall i | 0 <= i < |s[1..]| ensures WellFormed(s[1..][i]) {
          assert s[1..][i] == s[i + 1];
        }
      }
      SweepKeepsWellFormed(s[1..], false, cx, cy);
      SweepKeepsWellFormed(s[1..], Fallen(s[0]).y > CanvasHeight, cx, cy);
      var r := Sweep(s, skip, cx, cy).survivors;
      forall i | 0 <= i < |r| ensures WellFormed(r[i]) {
      }
    }
  }

  /** The pass never grows the list. */
  lemma PassShrinks(s: seq<Obstacle>, cx: int, cy: real)
    ensures |ObstaclePass(s, cx, cy).survivors| <= |s|
  {
    PassIsSweep(s, cx, cy);
    SweepShrinks(s, false, cx, cy);
  }

  /** Every obstacle left after the pass is still on the canvas, on its grid and of its shape. */
  lemma PassKeepsWellFormed(s: seq<Obstacle>, cx: int, cy: real)
    requires AllWellFormed(s)
    ensures AllWellFormed(ObstaclePass(s, cx, cy).survivors)
  {
    PassIsSweep(s, cx, cy);
    SweepKeepsWellFormed(s, false, cx, cy);
  }

  /**
   * When the first obstacle falls off the bottom, the second slides into its
   * slot and is left where it was: not moved and not tested.
   */
  lemma SkipAfterRemoval(s: seq<Obstacle>, cx: int, cy: real)
    requires |s| >= 2 && Fallen(s[0]).y > CanvasHeight
    ensures ObstaclePass(s, cx, cy).survivors == [s[1]] + Sweep(s[2..], false, cx, cy).survivors
    ensures ObstaclePass(s, cx, cy).hit == (Collides(cx, cy, Fallen(s[0])) || Sweep(s[2..], false, cx, cy).hit)
  {
    PassIsSweep(s, cx, cy);
    assert s[1..][1..] == s[2..];
  }

  /**
   * Wherever the walk has got to (`done` walked, `rest` still ahead), an
   * obstacle spliced out at that index is still tested, at its new position,
   * and the remaining walk reports the hit; the list comes out shorter.
   */
  lemma RemovedStillTested(done: seq<Obstacle>, rest: seq<Obstacle>, n: nat, cx: int, cy: real)
    requires |done| + |rest| <= n && rest != []
    requires Fallen(rest[0]).y > CanvasHeight && Collides(cx, cy, Fallen(rest[0]))
    ensures Walk(done + rest, |done|, n, cx, cy).hit
    ensures |Walk(done + rest, |done|, n, cx, cy).survivors| < |done| + |rest|
  {
    WalkFrom(done, rest, n, cx, cy);
    SweepShrinks(rest[1..], true, cx, cy);
  }
}
