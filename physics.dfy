/**
 * The collision utilities of the engine: clamping, overlap tests, the ground
 * probe and the axis-separated mover used by every moving body.
 */
module Physics {
  import opened Types

  /** What the mover hands back: the resolved rectangle, the velocities after
      contact and which sides touched a solid. */
  datatype BodyMoveResult = BodyMoveResult(
    rect: Rect,
    vx: real,
    vy: real,
    hitLeft: bool,
    hitRight: bool,
    hitTop: bool,
    hitBottom: bool)

  function Max(a: real, b: real): real { if a >= b then a else b }

  function Min(a: real, b: real): real { if a <= b then a else b }

  /** `Math.max(min, Math.min(max, value))`. */
  function Clamp(value: real, min: real, max: real): (r: real)
    ensures min <= max ==> min <= r <= max
    ensures min <= value <= max ==> r == value
    ensures min <= max && value < min ==> r == min
    ensures min <= max && max < value ==> r == max
    ensures max < min ==> r == min
  {
    Max(min, Min(max, value))
  }

  // ---------------------------------------------------------------------------
  // Overlap tests

  /** Strict AABB overlap: rectangles that only share an edge do not overlap. */
  predicate RectsOverlap(a: Rect, b: Rect) {
    a.x < b.x + b.w && a.x + a.w > b.x && a.y < b.y + b.h && a.y + a.h > b.y
  }

  /** The point lies in the open interior of the rectangle. */
  ghost predicate InInterior(r: Rect, px: real, py: real) {
    r.x < px < r.x + r.w && r.y < py < r.y + r.h
  }

  /** The point lies in the rectangle, edges included. */
  predicate ContainsPoint(r: Rect, px: real, py: real) {
    px >= r.x && px <= r.x + r.w && py >= r.y && py <= r.y + r.h
  }

  lemma RectsOverlapSymmetric(a: Rect, b: Rect)
    ensures RectsOverlap(a, b) == RectsOverlap(b, a)
  {
  }

  /** Touching along a vertical or horizontal edge is not an overlap. */
  lemma SharedEdgeIsNoOverlap(a: Rect, b: Rect)
    ensures a.x + a.w == b.x ==> !RectsOverlap(a, b)
    ensures b.x + b.w == a.x ==> !RectsOverlap(a, b)
    ensures a.y + a.h == b.y ==> !RectsOverlap(a, b)
    ensures b.y + b.h == a.y ==> !RectsOverlap(a, b)
  {
  }

  /** For rectangles of positive size, overlap means exactly that the two
      interiors share a point, that is, the intersection has positive area. */
  lemma RectsOverlapIffCommonInterior(a: Rect, b: Rect)
    requires a.w > 0.0 && a.h > 0.0 && b.w > 0.0 && b.h > 0.0
    ensures RectsOverlap(a, b) <==> exists px, py :: InInterior(a, px, py) && InInterior(b, px, py)
  {
    if RectsOverlap(a, b) {
      var px := (Max(a.x, b.x) + Min(a.x + a.w, b.x + b.w)) / 2.0;
      var py := (Max(a.y, b.y) + Min(a.y + a.h, b.y + b.h)) / 2.0;
      assert InInterior(a, px, py) && InInterior(b, px, py);
    }
  }

  /** Circle-versus-rectangle test used for coin pickup: the centre is
      clamped into the rectangle and the squared distance compared with r². */
  predicate CircleIntersectsRect(cx: real, cy: real, radius: real, rect: Rect) {
    var nearestX := Clamp(cx, rect.x, rect.x + rect.w);
    var nearestY := Clamp(cy, rect.y, rect.y + rect.h);
    var dx := cx - nearestX;
    var dy := cy - nearestY;
    dx * dx + dy * dy <= radius * radius
  }

  /** A circle whose centre lies in the rectangle always touches it. */
  lemma CircleCentreInsideIntersects(cx: real, cy: real, radius: real, rect: Rect)
    requires ContainsPoint(rect, cx, cy)
    ensures CircleIntersectsRect(cx, cy, radius, rect)
  {
  }

  lemma SquareMonotone(a: real, b: real)
    requires 0.0 <= a <= b
    ensures a * a <= b * b
  {
    assert a * a <= a * b;
    assert a * b <= b * b;
  }

  /** The clamped point is the point of [lo, hi] nearest to c. */
  lemma ClampIsNearest(c: real, lo: real, hi: real, p: real)
    requires lo <= p <= hi
    ensures (c - Clamp(c, lo, hi)) * (c - Clamp(c, lo, hi)) <= (c - p) * (c - p)
  {
    var q := Clamp(c, lo, hi);
    if c < lo {
      SquareMonotone(lo - c, p - c);
    } else if c > hi {
      SquareMonotone(c - hi, c - p);
    } else {
      assert q == c;
    }
  }

  /** Reference definition: for a rectangle of non-negative size, the test
      holds exactly when some point of the closed rectangle lies within
      `radius` of the centre. */
  lemma CircleIntersectsRectIffNearPoint(cx: real, cy: real, radius: real, rect: Rect)
    requires rect.w >= 0.0 && rect.h >= 0.0
    ensures CircleIntersectsRect(cx, cy, radius, rect) <==>
            exists px, py :: ContainsPoint(rect, px, py) &&
                             (cx - px) * (cx - px) + (cy - py) * (cy - py) <= radius * radius
  {
    if CircleIntersectsRect(cx, cy, radius, rect) {
      NearestPointWithin(cx, cy, radius, rect);
    }
    forall px, py | ContainsPoint(rect, px, py) &&
                    (cx - px) * (cx - px) + (cy - py) * (cy - py) <= radius * radius
      ensures CircleIntersectsRect(cx, cy, radius, rect)
    {
      PointWithinSuffices(cx, cy, radius, rect, px, py);
    }
  }

  /** The clamped point is a point of the rectangle within reach. */
  lemma NearestPointWithin(cx: real, cy: real, radius: real, rect: Rect)
    requires rect.w >= 0.0 && rect.h >= 0.0 && CircleIntersectsRect(cx, cy, radius, rect)
    ensures exists px, py :: ContainsPoint(rect, px, py) &&
                             (cx - px) * (cx - px) + (cy - py) * (cy - py) <= radius * radius
  {
    var nx := Clamp(cx, rect.x, rect.x + rect.w);
    var ny := Clamp(cy, rect.y, rect.y + rect.h);
    assert ContainsPoint(rect, nx, ny);
  }

  /** Any point of the rectangle within reach is no nearer than the clamped
      one. */
  lemma PointWithinSuffices(cx: real, cy: real, radius: real, rect: Rect, px: real, py: real)
    requires ContainsPoint(rect, px, py)
    requires (cx - px) * (cx - px) + (cy - py) * (cy - py) <= radius * radius
    ensures CircleIntersectsRect(cx, cy, radius, rect)
  {
    ClampIsNearest(cx, rect.x, rect.x + rect.w, px);
    ClampIsNearest(cy, rect.y, rect.y + rect.h, py);
  }

  /** `solids.some(...)`: some solid contains the point, edges included. */
  predicate HasGroundAt(x: real, y: real, solids: seq<Rect>) {
    if solids == [] then false
    else ContainsPoint(solids[0], x, y) || HasGroundAt(x, y, solids[1..])
  }

  lemma {:induction false} HasGroundAtIff(x: real, y: real, solids: seq<Rect>)
    ensures HasGroundAt(x, y, solids) <==> exists i :: 0 <= i < |solids| && ContainsPoint(solids[i], x, y)
    ensures solids == [] ==> !HasGroundAt(x, y, solids)
  {
    if solids != [] {
      HasGroundAtIff(x, y, solids[1..]);
      if HasGroundAt(x, y, solids[1..]) {
        var i :| 0 <= i < |solids[1..]| && ContainsPoint(solids[1..][i], x, y);
        assert ContainsPoint(solids[i + 1], x, y);
      }
      if exists i :: 0 <= i < |solids| && ContainsPoint(solids[i], x, y) {
        var i :| 0 <= i < |solids| && ContainsPoint(solids[i], x, y);
        if i > 0 {
          assert ContainsPoint(solids[1..][i - 1], x, y);
        }
      }
    }
  }

  // ---------------------------------------------------------------------------
  // The axis-separated mover

  datatype Axis = Horizontal | Vertical

  function Pos(r: Rect, axis: Axis): real {
    if axis.Horizontal? then r.x else r.y
  }

  function Extent(r: Rect, axis: Axis): real {
    if axis.Horizontal? then r.w else r.h
  }

  function WithPos(r: Rect, axis: Axis, p: real): Rect {
    if axis.Horizontal? then r.(x := p) else r.(y := p)
  }

  /** The state carried through one pass over the solids: the rectangle being
      moved, the velocity along the axis and the two contact flags (towards
      the negative and the positive end of the axis). */
  datatype AxisState = AxisState(rect: Rect, v: real, hitNeg: bool, hitPos: bool)

  /** One iteration of a pass: on overlap, snap to the solid's near edge in the
      direction of travel, set the matching flag and zero the velocity. */
  function SnapAgainst(axis: Axis, st: AxisState, solid: Rect): AxisState {
    if !RectsOverlap(st.rect, solid) then st
    else if st.v > 0.0 then
      AxisState(WithPos(st.rect, axis, Pos(solid, axis) - Extent(st.rect, axis)), 0.0, st.hitNeg, true)
    else if st.v < 0.0 then
      AxisState(WithPos(st.rect, axis, Pos(solid, axis) + Extent(solid, axis)), 0.0, true, st.hitPos)
    else st.(v := 0.0)
  }

  /** A whole pass over the solids, in list order. */
  function Sweep(axis: Axis, st: AxisState, solids: seq<Rect>): AxisState
    decreases |solids|
  {
    if solids == [] then st else Sweep(axis, SnapAgainst(axis, st, solids[0]), solids[1..])
  }

  /** The horizontal pass: integrate x by `vx * dt`, then resolve against
      every solid. */
  function HorizontalPass(rect: Rect, vx: real, dt: real, solids: seq<Rect>): AxisState {
    Sweep(Horizontal, AxisState(rect.(x := rect.x + vx * dt), vx, false, false), solids)
  }

  /** The vertical pass: integrate y by `vy * dt`, then resolve. */
  function VerticalPass(rect: Rect, vy: real, dt: real, solids: seq<Rect>): AxisState {
    Sweep(Vertical, AxisState(rect.(y := rect.y + vy * dt), vy, false, false), solids)
  }

  /** The mover as a function: the vertical pass starts from the rectangle the
      horizontal pass resolved. */
  function MoveBodySpec(rect: Rect, vx: real, vy: real, dt: real, solids: seq<Rect>): BodyMoveResult {
    var xPass := HorizontalPass(rect, vx, dt, solids);
    var yPass := VerticalPass(xPass.rect, vy, dt, solids);
    BodyMoveResult(yPass.rect, xPass.v, yPass.v, xPass.hitNeg, xPass.hitPos, yPass.hitNeg, yPass.hitPos)
  }

  /** `moveBody`: copies the rectangle, then runs the two passes as loops. */
  method MoveBody(rect: Rect, vx: real, vy: real, dt: real, solids: seq<Rect>) returns (result: BodyMoveResult)
    ensures result == MoveBodySpec(rect, vx, vy, dt, solids)
  {
    var moved := rect;
    var nextVx := vx;
    var nextVy := vy;

    moved := moved.(x := moved.x + nextVx * dt);
    var hitLeft := false;
    var hitRight := false;
    ghost var xPass := HorizontalPass(rect, vx, dt, solids);
    for i := 0 to |solids|
      invariant Sweep(Horizontal, AxisState(moved, nextVx, hitLeft, hitRight), solids[i..]) == xPass
    {
      assert solids[i..][1..] == solids[i + 1..];
      var solid := solids[i];
      if !RectsOverlap(moved, solid) {
        continue;
      }
      if nextVx > 0.0 {
        moved := moved.(x := solid.x - moved.w);
        hitRight := true;
      } else if nextVx < 0.0 {
        moved := moved.(x := solid.x + solid.w);
        hitLeft := true;
      }
      nextVx := 0.0;
    }
    assert solids[|solids|..] == [];

    moved := moved.(y := moved.y + nextVy * dt);
    var hitTop := false;
    var hitBottom := false;
    ghost var yPass := VerticalPass(xPass.rect, vy, dt, solids);
    for i := 0 to |solids|
      invariant Sweep(Vertical, AxisState(moved, nextVy, hitTop, hitBottom), solids[i..]) == yPass
    {
      assert solids[i..][1..] == solids[i + 1..];
      var solid := solids[i];
      if !RectsOverlap(moved, solid) {
        continue;
      }
      if nextVy > 0.0 {
        moved := moved.(y := solid.y - moved.h);
        hitBottom := true;
      } else if nextVy < 0.0 {
        moved := moved.(y := solid.y + solid.h);
        hitTop := true;
      }
      nextVy := 0.0;
    }
    assert solids[|solids|..] == [];

    result := BodyMoveResult(moved, nextVx, nextVy, hitLeft, hitRight, hitTop, hitBottom);
  }

  // ---------------------------------------------------------------------------
  // Properties of one pass

  /** A pass whose velocity is already zero changes nothing. */
  lemma {:induction false} SweepAtRest(axis: Axis, st: AxisState, solids: seq<Rect>)
    requires st.v == 0.0
    ensures Sweep(axis, st, solids) == st
  {
    if solids != [] {
      SweepAtRest(axis, SnapAgainst(axis, st, solids[0]), solids[1..]);
    }
  }

  /** A pass that meets no solid changes nothing. */
  lemma {:induction false} SweepMiss(axis: Axis, st: AxisState, solids: seq<Rect>)
    requires forall j :: 0 <= j < |solids| ==> !RectsOverlap(st.rect, solids[j])
    ensures Sweep(axis, st, solids) == st
  {
    if solids != [] {
      SweepMiss(axis, st, solids[1..]);
    }
  }

  /** Only the first overlapping solid, in list order, decides the snap: after
      it the velocity is zero and later overlaps change nothing. */
  lemma {:induction false} SweepFirstHit(axis: Axis, st: AxisState, solids: seq<Rect>, k: nat)
    requires k < |solids| && RectsOverlap(st.rect, solids[k])
    requires forall j :: 0 <= j < k ==> !RectsOverlap(st.rect, solids[j])
    ensures Sweep(axis, st, solids) == SnapAgainst(axis, st, solids[k])
  {
    if k == 0 {
      SweepAtRest(axis, SnapAgainst(axis, st, solids[0]), solids[1..]);
    } else {
      SweepFirstHit(axis, st, solids[1..], k - 1);
    }
  }

  /** A pass moves the rectangle only along its own axis and keeps its size. */
  lemma {:induction false} SweepKeepsShape(axis: Axis, st: AxisState, solids: seq<Rect>)
    ensures Sweep(axis, st, solids).rect.w == st.rect.w
    ensures Sweep(axis, st, solids).rect.h == st.rect.h
    ensures axis.Horizontal? ==> Sweep(axis, st, solids).rect.y == st.rect.y
    ensures axis.Vertical? ==> Sweep(axis, st, solids).rect.x == st.rect.x
    decreases |solids|
  {
    if solids != [] {
      SweepKeepsShape(axis, SnapAgainst(axis, st, solids[0]), solids[1..]);
    }
  }

  /** How the flags of a pass relate to its starting velocity `v0`. */
  ghost predicate FlagsAgree(st: AxisState, v0: real) {
    && (st.v == v0 || st.v == 0.0)
    && (st.hitPos ==> v0 > 0.0 && st.v == 0.0)
    && (st.hitNeg ==> v0 < 0.0 && st.v == 0.0)
    && (v0 != 0.0 && st.v == 0.0 ==> st.hitPos || st.hitNeg)
  }

  lemma {:induction false} SweepFlags(axis: Axis, st: AxisState, v0: real, solids: seq<Rect>)
    requires FlagsAgree(st, v0)
    ensures FlagsAgree(Sweep(axis, st, solids), v0)
    decreases |solids|
  {
    if solids != [] {
      SweepFlags(axis, SnapAgainst(axis, st, solids[0]), v0, solids[1..]);
    }
  }

  // ---------------------------------------------------------------------------
  // Properties of the mover

  /** With both velocities zero the mover returns the input unchanged. */
  lemma MoveBodyAtRest(rect: Rect, dt: real, solids: seq<Rect>)
    ensures MoveBodySpec(rect, 0.0, 0.0, dt, solids) ==
            BodyMoveResult(rect, 0.0, 0.0, false, false, false, false)
  {
    assert rect.(x := rect.x + 0.0 * dt) == rect;
    SweepAtRest(Horizontal, AxisState(rect, 0.0, false, false), solids);
    assert rect.(y := rect.y + 0.0 * dt) == rect;
    SweepAtRest(Vertical, AxisState(rect, 0.0, false, false), solids);
  }

  /** The mover keeps the size of the rectangle, and the vertical pass keeps
      the x that the horizontal pass resolved. */
  lemma MoveBodyKeepsSize(rect: Rect, vx: real, vy: real, dt: real, solids: seq<Rect>)
    ensures MoveBodySpec(rect, vx, vy, dt, solids).rect.w == rect.w
    ensures MoveBodySpec(rect, vx, vy, dt, solids).rect.h == rect.h
    ensures MoveBodySpec(rect, vx, vy, dt, solids).rect.x == HorizontalPass(rect, vx, dt, solids).rect.x
  {
    SweepKeepsShape(Horizontal, AxisState(rect.(x := rect.x + vx * dt), vx, false, false), solids);
    var xPass := HorizontalPass(rect, vx, dt, solids);
    SweepKeepsShape(Vertical, AxisState(xPass.rect.(y := xPass.rect.y + vy * dt), vy, false, false), solids);
  }

  /** A contact flag implies motion towards that side and a zeroed velocity;
      opposite flags are never both set; a moving axis stops only on contact. */
  lemma MoveBodyContacts(rect: Rect, vx: real, vy: real, dt: real, solids: seq<Rect>)
    ensures var r := MoveBodySpec(rect, vx, vy, dt, solids);
      && (r.hitRight ==> vx > 0.0 && r.vx == 0.0)
      && (r.hitLeft ==> vx < 0.0 && r.vx == 0.0)
      && !(r.hitLeft && r.hitRight)
      && (r.vx == vx || r.vx == 0.0)
      && (vx != 0.0 && r.vx == 0.0 ==> r.hitLeft || r.hitRight)
      && (r.hitBottom ==> vy > 0.0 && r.vy == 0.0)
      && (r.hitTop ==> vy < 0.0 && r.vy == 0.0)
      && !(r.hitTop && r.hitBottom)
      && (r.vy == vy || r.vy == 0.0)
      && (vy != 0.0 && r.vy == 0.0 ==> r.hitTop || r.hitBottom)
  {
    SweepFlags(Horizontal, AxisState(rect.(x := rect.x + vx * dt), vx, false, false), vx, solids);
    var xPass := HorizontalPass(rect, vx, dt, solids);
    SweepFlags(Vertical, AxisState(xPass.rect.(y := xPass.rect.y + vy * dt), vy, false, false), vy, solids);
  }

  /** The first solid, in list order, that overlaps `r`. */
  ghost predicate FirstOverlap(r: Rect, solids: seq<Rect>, k: int) {
    && 0 <= k < |solids|
    && RectsOverlap(r, solids[k])
    && forall j :: 0 <= j < k ==> !RectsOverlap(r, solids[j])
  }

  /** If the x-moved rectangle meets no solid, x advances by `vx * dt` and
      `vx` is kept. */
  lemma MoveBodyFreeX(rect: Rect, vx: real, vy: real, dt: real, solids: seq<Rect>)
    requires forall j :: 0 <= j < |solids| ==> !RectsOverlap(rect.(x := rect.x + vx * dt), solids[j])
    ensures var r := MoveBodySpec(rect, vx, vy, dt, solids);
            r.rect.x == rect.x + vx * dt && r.vx == vx && !r.hitLeft && !r.hitRight
  {
    SweepMiss(Horizontal, AxisState(rect.(x := rect.x + vx * dt), vx, false, false), solids);
    MoveBodyKeepsSize(rect, vx, vy, dt, solids);
  }

  /** Otherwise x snaps against the first overlapping solid only: to its left
      edge when moving right, to its right edge when moving left. */
  lemma MoveBodySnapX(rect: Rect, vx: real, vy: real, dt: real, solids: seq<Rect>, k: int)
    requires FirstOverlap(rect.(x := rect.x + vx * dt), solids, k)
    ensures var r := MoveBodySpec(rect, vx, vy, dt, solids);
      && r.vx == 0.0
      && r.hitRight == (vx > 0.0)
      && r.hitLeft == (vx < 0.0)
      && r.rect.x == (if vx > 0.0 then solids[k].x - rect.w
                      else if vx < 0.0 then solids[k].x + solids[k].w
                      else rect.x + vx * dt)
  {
    SweepFirstHit(Horizontal, AxisState(rect.(x := rect.x + vx * dt), vx, false, false), solids, k);
    MoveBodyKeepsSize(rect, vx, vy, dt, solids);
  }

  /** The vertical pass starts from the resolved x: if the y-moved rectangle
      there meets no solid, y advances by `vy * dt` and `vy` is kept. */
  lemma MoveBodyFreeY(rect: Rect, vx: real, vy: real, dt: real, solids: seq<Rect>)
    requires var xr := HorizontalPass(rect, vx, dt, solids).rect.x;
             forall j :: 0 <= j < |solids| ==> !RectsOverlap(Rect(xr, rect.y + vy * dt, rect.w, rect.h), solids[j])
    ensures var r := MoveBodySpec(rect, vx, vy, dt, solids);
            && r.rect == Rect(HorizontalPass(rect, vx, dt, solids).rect.x, rect.y + vy * dt, rect.w, rect.h)
            && r.vy == vy && !r.hitTop && !r.hitBottom
  {
    var xStart := AxisState(rect.(x := rect.x + vx * dt), vx, false, false);
    SweepKeepsShape(Horizontal, xStart, solids);
    var xPass := HorizontalPass(rect, vx, dt, solids);
    var yStart := AxisState(xPass.rect.(y := xPass.rect.y + vy * dt), vy, false, false);
    assert yStart.rect == Rect(xPass.rect.x, rect.y + vy * dt, rect.w, rect.h);
    SweepMiss(Vertical, yStart, solids);
  }

  /** Otherwise y snaps against the first solid overlapping it there: onto its
      top when falling, under its bottom when rising. */
  lemma MoveBodySnapY(rect: Rect, vx: real, vy: real, dt: real, solids: seq<Rect>, k: int)
    requires var xr := HorizontalPass(rect, vx, dt, solids).rect.x;
             FirstOverlap(Rect(xr, rect.y + vy * dt, rect.w, rect.h), solids, k)
    ensures var r := MoveBodySpec(rect, vx, vy, dt, solids);
      && r.vy == 0.0
      && r.hitBottom == (vy > 0.0)
      && r.hitTop == (vy < 0.0)
      && r.rect.y == (if vy > 0.0 then solids[k].y - rect.h
                      else if vy < 0.0 then solids[k].y + solids[k].h
                      else rect.y + vy * dt)
  {
    var xStart := AxisState(rect.(x := rect.x + vx * dt), vx, false, false);
    SweepKeepsShape(Horizontal, xStart, solids);
    var xPass := HorizontalPass(rect, vx, dt, solids);
    var yStart := AxisState(xPass.rect.(y := xPass.rect.y + vy * dt), vy, false, false);
    assert yStart.rect == Rect(xPass.rect.x, rect.y + vy * dt, rect.w, rect.h);
    SweepFirstHit(Vertical, yStart, solids, k);
  }

  /** Snapping against the first overlapping solid does not guarantee a free
      position: here the body ends inside the second solid of the list. */
  lemma MoveBodyMayEndInsideSolid()
    ensures var b := Rect(50.0, 0.0, 100.0, 10.0);
            var r := MoveBodySpec(Rect(0.0, 0.0, 20.0, 10.0), 90.0, 0.0, 1.0,
                                  [Rect(100.0, 0.0, 100.0, 10.0), b]);
            r.rect == Rect(80.0, 0.0, 20.0, 10.0) && RectsOverlap(r.rect, b)
  {
    var a := Rect(100.0, 0.0, 100.0, 10.0);
    var b := Rect(50.0, 0.0, 100.0, 10.0);
    var moved := Rect(90.0, 0.0, 20.0, 10.0);
    assert Rect(0.0, 0.0, 20.0, 10.0).(x := 0.0 + 90.0 * 1.0) == moved;
    SweepFirstHit(Horizontal, AxisState(moved, 90.0, false, false), [a, b], 0);
    var snapped := Rect(80.0, 0.0, 20.0, 10.0);
    assert snapped.(y := 0.0 + 0.0 * 1.0) == snapped;
    SweepAtRest(Vertical, AxisState(snapped, 0.0, false, false), [a, b]);
  }
}
