/**
 * The state of `NvgTest` that is not drawing: the user's matrix, the draggable "misc"
 * vector, which handle the mouse holds, the fixed hit-test anchors and the list of dots.
 *
 * The mouse/drag block of `render` is specified by the pure transition `Frame` and
 * implemented by `NvgTest.Step`, which updates the fields in place the way `render` does.
 * The two mouse points of a frame (`mouse_normalized`, `mouse_local`) are inputs: how
 * they are obtained from the screen position is drawing code and not part of this model.
 */
module NvgRender {
  import opened LinAlg

  /** `self.held`: `None`, `"x"`, `"y"` or `"m"`. */
  datatype Held = Idle | DragX | DragY | DragM

  /** What one frame of `render` reads from the mouse. */
  datatype FrameInput = FrameInput(released: bool, clicked: bool, mouseLocal: Vec2, mouseNormalized: Vec2)

  /** The part of the object that the mouse block reads and writes. */
  datatype Interaction = Interaction(matrix: Mat3, held: Held, misc: Vec2)

  /** The radius around each handle within which a click grabs it. */
  const HitRadius: real := 0.1

  function Sub(a: Vec2, b: Vec2): Vec2 {
    Vec2(a.x - b.x, a.y - b.y)
  }

  function SquaredLength(v: Vec2): real {
    v.x * v.x + v.y * v.y
  }

  /** `l` is the Euclidean length of `v`, as `glm.length(v)` computes it. */
  ghost predicate IsLength(v: Vec2, l: real) {
    0.0 <= l && l * l == SquaredLength(v)
  }

  /**
   * `point_within_circle`: the distance from `point` to `circle_center` is at most `radius`.
   * The square root is taken out: a length is never negative, so for a negative radius
   * nothing is within, and otherwise comparing squares is the same comparison.
   */
  predicate PointWithinCircle(point: Vec2, center: Vec2, radius: real)
    ensures radius < 0.0 ==> !PointWithinCircle(point, center, radius)
    ensures point == center ==> (PointWithinCircle(point, center, radius) <==> 0.0 <= radius)
  {
    0.0 <= radius && SquaredLength(Sub(point, center)) <= radius * radius
  }

  lemma SquareStrictlyMonotone(a: real, b: real)
    requires 0.0 <= a < b
    ensures a * a < b * b
  {
    calc {
      a * a;
    <= a * b;
    < b * b;
    }
  }

  /**
   * PointWithinCircle agrees with `glm.length(point - center) <= radius` for every radius;
   * in particular a point at exactly distance `radius` counts as inside.
   */
  lemma {:induction false} WithinCircleIffLength(point: Vec2, center: Vec2, radius: real, len: real)
    requires IsLength(Sub(point, center), len)
    ensures PointWithinCircle(point, center, radius) <==> len <= radius
  {
    if 0.0 <= radius {
      if len <= radius {
        if len < radius {
          SquareStrictlyMonotone(len, radius);
        }
      } else {
        SquareStrictlyMonotone(radius, len);
      }
    }
  }

  /** The three anchors in the order `render` tries them: `x_unit`, `y_unit`, the current misc vector. */
  function Anchors(xUnit: Vec2, yUnit: Vec2, misc: Vec2): seq<Vec2> {
    [xUnit, yUnit, misc]
  }

  /** The handle that anchor k grabs. */
  function HandleOf(k: nat): Held
    requires k < 3
  {
    if k == 0 then DragX else if k == 1 then DragY else DragM
  }

  /**
   * The click hit test: the handle of the FIRST anchor whose circle holds the mouse, in
   * the order of Anchors, or Idle when none does (overlaps are settled by order, not by
   * distance).
   */
  function HitTest(mouseLocal: Vec2, xUnit: Vec2, yUnit: Vec2, misc: Vec2): (h: Held)
    ensures h == Idle <==>
      forall k | 0 <= k < 3 :: !PointWithinCircle(mouseLocal, Anchors(xUnit, yUnit, misc)[k], HitRadius)
    ensures forall k | 0 <= k < 3 :: h == HandleOf(k) <==>
      PointWithinCircle(mouseLocal, Anchors(xUnit, yUnit, misc)[k], HitRadius) &&
      forall e | 0 <= e < k :: !PointWithinCircle(mouseLocal, Anchors(xUnit, yUnit, misc)[e], HitRadius)
  {
    var anchors := Anchors(xUnit, yUnit, misc);
    assert anchors[0] == xUnit && anchors[1] == yUnit && anchors[2] == misc;
    if PointWithinCircle(mouseLocal, xUnit, HitRadius) then DragX
    else if PointWithinCircle(mouseLocal, yUnit, HitRadius) then DragY
    else if PointWithinCircle(mouseLocal, misc, HitRadius) then DragM
    else Idle
  }

  /** `vec3(p.x, p.y, 0)`: a mouse point as a basis column. */
  function OnPlane(p: Vec2): Vec3 {
    Vec3(p.x, p.y, 0.0)
  }

  /**
   * One frame with a handle held: the held vector is set to the normalised mouse point
   * and nothing else moves.
   */
  function Drag(s: Interaction, p: Vec2): (r: Interaction)
    ensures r.held == s.held
    ensures s.held == DragX ==>
      Column(r.matrix, 0) == OnPlane(p) && r.matrix == WithColumn(s.matrix, 0, OnPlane(p)) && r.misc == s.misc
    ensures s.held == DragY ==>
      Column(r.matrix, 1) == OnPlane(p) && r.matrix == WithColumn(s.matrix, 1, OnPlane(p)) && r.misc == s.misc
    ensures s.held == DragM ==> r.matrix == s.matrix && r.misc == p
    ensures s.held == Idle ==> r == s
    ensures IsLinearMap(s.matrix) ==> IsLinearMap(r.matrix)
  {
    match s.held
    case DragX => s.(matrix := s.matrix.(c0 := OnPlane(p)))
    case DragY => s.(matrix := s.matrix.(c1 := OnPlane(p)))
    case DragM => s.(misc := p)
    case Idle => s
  }

  /**
   * The mouse block of `render` as a transition: the release check runs first, then a held
   * handle follows the mouse, and only when nothing is held does a click run the hit test.
   */
  function Frame(s: Interaction, xUnit: Vec2, yUnit: Vec2, inp: FrameInput): (r: Interaction)
    // A release is seen before the drag update: on that frame no vector is written.
    ensures inp.released ==> r.matrix == s.matrix && r.misc == s.misc
    ensures inp.released && !inp.clicked ==> r.held == Idle
    // A held handle follows the normalised mouse and a click is ignored.
    ensures !inp.released && s.held != Idle ==> r == Drag(s, inp.mouseNormalized) && r.held == s.held
    // With nothing held after the release check, only the hit test can change the state.
    ensures (inp.released || s.held == Idle) ==>
      r.matrix == s.matrix && r.misc == s.misc &&
      r.held == (if inp.clicked then HitTest(inp.mouseLocal, xUnit, yUnit, s.misc) else Idle)
    ensures IsLinearMap(s.matrix) ==> IsLinearMap(r.matrix)
  {
    var afterRelease := if inp.released then s.(held := Idle) else s;
    if afterRelease.held != Idle then
      Drag(afterRelease, inp.mouseNormalized)
    else if inp.clicked then
      afterRelease.(held := HitTest(inp.mouseLocal, xUnit, yUnit, afterRelease.misc))
    else
      afterRelease
  }

  /** The state after a sequence of frames, first frame first. */
  function Run(s: Interaction, xUnit: Vec2, yUnit: Vec2, frames: seq<FrameInput>): Interaction
    decreases |frames|
  {
    if frames == [] then s else Run(Frame(s, xUnit, yUnit, frames[0]), xUnit, yUnit, frames[1..])
  }

  /** Running two sequences of frames one after the other is running their concatenation. */
  lemma {:induction false} RunAppend(s: Interaction, xUnit: Vec2, yUnit: Vec2, a: seq<FrameInput>, b: seq<FrameInput>)
    ensures Run(s, xUnit, yUnit, a + b) == Run(Run(s, xUnit, yUnit, a), xUnit, yUnit, b)
    decreases |a|
  {
    if a == [] {
      assert a + b == b;
    } else {
      assert (a + b)[0] == a[0];
      assert (a + b)[1..] == a[1..] + b;
      RunAppend(Frame(s, xUnit, yUnit, a[0]), xUnit, yUnit, a[1..], b);
    }
  }

  /** No sequence of frames breaks the linear-map shape of the matrix. */
  lemma {:induction false} RunKeepsLinearMap(s: Interaction, xUnit: Vec2, yUnit: Vec2, frames: seq<FrameInput>)
    requires IsLinearMap(s.matrix)
    ensures IsLinearMap(Run(s, xUnit, yUnit, frames).matrix)
    decreases |frames|
  {
    if frames != [] {
      RunKeepsLinearMap(Frame(s, xUnit, yUnit, frames[0]), xUnit, yUnit, frames[1..]);
    }
  }

  /**
   * While a handle stays held (no release in any frame), the state after any number of
   * frames is one drag to the normalised mouse point of the LAST frame: every earlier
   * position is overwritten and clicks change nothing.
   */
  lemma {:induction false} HeldFollowsLastFrame(s: Interaction, xUnit: Vec2, yUnit: Vec2, frames: seq<FrameInput>)
    requires s.held != Idle
    requires |frames| > 0
    requires forall k | 0 <= k < |frames| :: !frames[k].released
    ensures Run(s, xUnit, yUnit, frames) == Drag(s, frames[|frames| - 1].mouseNormalized)
    decreases |frames|
  {
    var next := Frame(s, xUnit, yUnit, frames[0]);
    assert next == Drag(s, frames[0].mouseNormalized);
    if |frames| > 1 {
      HeldFollowsLastFrame(next, xUnit, yUnit, frames[1..]);
    }
  }

  /**
   * A whole drag of the x handle: a click inside the circle around `x_unit`, one or more
   * frames of dragging, then a frame that releases without clicking. Afterwards nothing
   * is held, matrix column 0 is the normalised mouse point of the last frame BEFORE the
   * release (the release frame itself writes nothing), and every other column and the
   * misc vector are as they were.
   */
  lemma {:induction false} ClickDragReleaseX(s: Interaction, xUnit: Vec2, yUnit: Vec2,
                                             click: FrameInput, drags: seq<FrameInput>, release: FrameInput)
    requires s.held == Idle
    requires click.clicked && !click.released && PointWithinCircle(click.mouseLocal, xUnit, HitRadius)
    requires |drags| > 0 && forall k | 0 <= k < |drags| :: !drags[k].released
    requires release.released && !release.clicked
    ensures Run(s, xUnit, yUnit, [click] + drags + [release]).held == Idle
    ensures Run(s, xUnit, yUnit, [click] + drags + [release]).matrix
         == WithColumn(s.matrix, 0, OnPlane(drags[|drags| - 1].mouseNormalized))
    ensures Run(s, xUnit, yUnit, [click] + drags + [release]).misc == s.misc
  {
    var grabbed := Frame(s, xUnit, yUnit, click);
    assert grabbed == s.(held := DragX);
    assert Run(s, xUnit, yUnit, [click]) == grabbed;
    HeldFollowsLastFrame(grabbed, xUnit, yUnit, drags);
    var dragged := Run(grabbed, xUnit, yUnit, drags);
    RunAppend(s, xUnit, yUnit, [click], drags);
    RunAppend(s, xUnit, yUnit, [click] + drags, [release]);
    assert Run(dragged, xUnit, yUnit, [release]) == Frame(dragged, xUnit, yUnit, release);
  }

  /** A dot produced by `random.uniform(-1, 1)` for each coordinate. */
  predicate InUnitSquare(p: Vec2) {
    -1.0 <= p.x <= 1.0 && -1.0 <= p.y <= 1.0
  }

  predicate AllInUnitSquare(ps: seq<Vec2>) {
    forall k | 0 <= k < |ps| :: InUnitSquare(ps[k])
  }

  /** The number of iterations of `for _ in range(n)`. */
  function RangeLength(n: int): nat {
    if n > 0 then n else 0
  }

  class NvgTest {
    var matrix: Mat3
    const scale: real
    var dots: seq<Vec2>
    var held: Held
    const xUnit: Vec2
    const yUnit: Vec2
    var miscVector: Vec2

    /**
     * The object invariant: the matrix stays a 2x2 linear map inside the 3x3 (its
     * translation column is never written) and every dot lies in the square [-1, 1]^2.
     */
    ghost predicate Valid()
      reads this
    {
      IsLinearMap(matrix) && AllInUnitSquare(dots)
    }

    /** The fields the mouse block reads and writes. */
    function State(): Interaction
      reads this
    {
      Interaction(matrix, held, miscVector)
    }

    /** `__init__`; `x_unit`, `y_unit` and `scale` are constants: nothing writes them afterwards. */
    constructor ()
      ensures Valid()
      ensures matrix == Identity() && scale == 100.0 && dots == [] && held == Idle
      ensures xUnit == Vec2(1.0, 0.0) && yUnit == Vec2(0.0, 1.0) && miscVector == Vec2(1.0, 1.0)
    {
      matrix := Identity();
      scale := 100.0;
      dots := [];
      held := Idle;
      xUnit := Vec2(1.0, 0.0);
      yUnit := Vec2(0.0, 1.0);
      miscVector := Vec2(1.0, 1.0);
    }

    /** The mouse block of `render` for one frame. */
    method Step(inp: FrameInput)
      requires Valid()
      modifies this`matrix, this`held, this`miscVector
      ensures Valid()
      ensures State() == Frame(old(State()), xUnit, yUnit, inp)
    {
      if inp.released {
        held := Idle;
      }
      var p := inp.mouseNormalized;
      if held == DragX {
        matrix := matrix.(c0 := Vec3(p.x, p.y, 0.0));
      } else if held == DragY {
        matrix := matrix.(c1 := Vec3(p.x, p.y, 0.0));
      } else if held == DragM {
        miscVector := Vec2(p.x, p.y);
      } else if inp.clicked {
        if PointWithinCircle(inp.mouseLocal, xUnit, HitRadius) {
          held := DragX;
        } else if PointWithinCircle(inp.mouseLocal, yUnit, HitRadius) {
          held := DragY;
        } else if PointWithinCircle(inp.mouseLocal, miscVector, HitRadius) {
          held := DragM;
        }
      }
    }

    /** `generate_dots(amount)`; `samples` are the draws of `random.uniform(-1, 1)`, two per dot. */
    method GenerateDots(amount: int, samples: seq<Vec2>)
      requires Valid()
      requires |samples| == RangeLength(amount) && AllInUnitSquare(samples)
      modifies this`dots
      ensures Valid()
      ensures dots == old(dots) + samples
      ensures |dots| == |old(dots)| + RangeLength(amount)
    {
      var k := 0;
      while k < amount
        invariant 0 <= k <= |samples|
        invariant dots == old(dots) + samples[..k]
        invariant AllInUnitSquare(dots)
      {
        dots := dots + [samples[k]];
        k := k + 1;
      }
      assert samples[..k] == samples;
    }

    /** `clear_dots`. */
    method ClearDots()
      requires Valid()
      modifies this`dots
      ensures Valid()
      ensures dots == []
    {
      dots := [];
    }

    /** `reset`: a placeholder that does nothing. */
    method Reset()
      ensures unchanged(this)
    {
    }
  }
}
