/** The WebGL works stage: a grid of textured cells centred on the origin,
    wide enough to cover the camera's view plus a margin, translated by a
    drag/wheel rig that wraps the offset into one cell and tilts and zooms
    the stage with the scroll speed. */
module WorksStage {
  import opened Common
  import InfiniteGrid

  const CellW: real := 2.6
  const CellH: real := 2.6
  const Gap: real := 0.05
  const ZBase: real := 10.0
  const Damping: real := 0.965
  const Follow: real := 0.12
  const DragGain: real := 0.75
  const WheelGain: real := 0.16
  const MaxV: real := 8.0
  const ZoomScaleMax: real := 0.08
  const TiltMax: real := 0.1
  const ScaleSmooth: real := 0.08
  const RotSmooth: real := 0.1
  /** The distance between neighbouring cell centres. */
  const PitchW: real := CellW + Gap
  const PitchH: real := CellH + Gap
  const Placeholder: string := "/images/placeholder.png"

  type P2 = InfiniteGrid.P2

  /* ---------------- viewport ---------------- */

  /** width / max(1, height), never below 0.01. */
  function Aspect(width: real, height: real): (a: real)
    ensures a >= 0.01
    ensures 1.0 <= height && 0.01 <= width / height ==> a == width / height
    ensures height < 1.0 && 0.01 <= width ==> a == width
  {
    Max(0.01, width / Max(1.0, height))
  }

  /** The camera's distance to the grid plane z = 0, never below 0.001. */
  function CameraDistance(z: real): (d: real)
    ensures d >= 0.001
    ensures 0.001 <= z ==> d == z
  {
    Max(0.001, z)
  }

  datatype Viewport = Viewport(vW: real, vH: real)

  /** The visible world-space extent at z = 0. `tanHalfFov` is
      tan(fov / 2) of the perspective camera, an input here. */
  function ViewportWH(width: real, height: real, z: real, tanHalfFov: real): (v: Viewport)
    ensures 0.0 < tanHalfFov ==> 0.0 < v.vH && 0.0 < v.vW && 0.01 * v.vH <= v.vW
  {
    var d := CameraDistance(z);
    var vH := 2.0 * d * tanHalfFov;
    var a := Aspect(width, height);
    ViewportFacts(d, tanHalfFov, a, vH, vH * a);
    Viewport(vH * a, vH)
  }

  lemma ViewportFacts(d: real, t: real, a: real, vH: real, vW: real)
    requires d > 0.0 && a >= 0.01 && vH == 2.0 * d * t && vW == vH * a
    ensures 0.0 < t ==> 0.0 < vH && 0.0 < vW && 0.01 * vH <= vW
  {
    if 0.0 < t {
      assert vH == 2.0 * (d * t);
      assert vW - 0.01 * vH == vH * (a - 0.01);
    }
  }

  /* ---------------- grid size ---------------- */

  /** max(least, ceil(extent / pitch) + 6) */
  function CellsAcross(extent: real, pitch: real, least: int): (c: int)
    requires pitch > 0.0
    ensures c >= least
    ensures c >= Ceil(extent / pitch) + 6
    ensures c == least || c == Ceil(extent / pitch) + 6
  {
    if Ceil(extent / pitch) + 6 >= least then Ceil(extent / pitch) + 6 else least
  }

  function Cols(vW: real): (c: int)
    ensures c >= 5
  {
    CellsAcross(vW, PitchW, 5)
  }

  function Rows(vH: real): (r: int)
    ensures r >= 3
  {
    CellsAcross(vH, PitchH, 3)
  }

  /** The grid covers the view with three spare cells on each side: the
      cells beyond six exceed the extent. */
  lemma CellsAcrossCover(extent: real, pitch: real, least: int)
    requires pitch > 0.0
    ensures (CellsAcross(extent, pitch, least) - 6) as real * pitch >= extent
  {
    var q := extent / pitch;
    var c := CellsAcross(extent, pitch, least);
    assert extent == q * pitch;
    assert q <= (c - 6) as real;
    assert (c - 6) as real * pitch - q * pitch == ((c - 6) as real - q) * pitch;
  }

  /* ---------------- textures ---------------- */

  /** The texture URL of each item: its `bg` when present and non-empty,
      else the placeholder; an empty item list yields one placeholder.
      An item is given by its `bg` field (None for a missing item or field). */
  function Urls(items: seq<Option<string>>): (urls: seq<string>)
    ensures |urls| == if |items| == 0 then 1 else |items|
    ensures forall k :: 0 <= k < |urls| ==> urls[k] != ""
    ensures |items| == 0 ==> urls == [Placeholder]
    ensures forall k :: 0 <= k < |items| ==>
      urls[k] == (if items[k].Some? && items[k].value != "" then items[k].value else Placeholder)
  {
    var src := if |items| == 0 then [None] else items;
    seq(|src|, k requires 0 <= k < |src| =>
      if src[k].Some? && src[k].value != "" then src[k].value else Placeholder)
  }

  /** The texture of the cell numbered idx: `textures[idx % len]`. */
  function TextureOf(urls: seq<string>, idx: nat): (u: string)
    requires |urls| > 0
    ensures u in urls
    ensures idx < |urls| ==> u == urls[idx]
  {
    urls[idx % |urls|]
  }

  /** Textures repeat with the period of the URL list. */
  lemma TexturePeriodic(urls: seq<string>, idx: nat)
    requires |urls| > 0
    ensures TextureOf(urls, idx + |urls|) == TextureOf(urls, idx)
  {
    ModShiftBack(idx, |urls|);
  }

  lemma ModShiftBack(i: nat, n: nat)
    requires n > 0
    ensures (i + n) % n == i % n
  {
    DivModUnique(i + n, n, i / n + 1, i % n);
  }

  /* ---------------- cells ---------------- */

  datatype Cell = Cell(x: real, y: real, idx: nat)

  /** The k-th cell: column i = k % cols - floor(cols / 2), row
      j = k / cols - floor(rows / 2), placed at (i * cellW, -j * cellH). */
  function CellAt(cols: nat, rows: nat, cellW: real, cellH: real, k: nat): Cell
    requires cols > 0
  {
    var i := k % cols - cols / 2;
    var j := k / cols - rows / 2;
    Cell(i as real * cellW, -(j as real) * cellH, k)
  }

  /** The row-major enumeration of the grid, rows top to bottom from
      j = -floor(rows / 2), columns from i = -floor(cols / 2). */
  method Cells(cols: nat, rows: nat, cellW: real, cellH: real) returns (out: seq<Cell>)
    requires cols > 0
    ensures |out| == cols * rows
    ensures forall k :: 0 <= k < |out| ==> out[k] == CellAt(cols, rows, cellW, cellH, k)
  {
    out := [];
    var cx0 := cols / 2;
    var cy0 := rows / 2;
    var idx: nat := 0;
    var j: int := -cy0;
    while j < -cy0 + rows
      invariant -cy0 <= j <= -cy0 + rows
      invariant idx == |out| == (j + cy0) * cols
      invariant forall k :: 0 <= k < |out| ==> out[k] == CellAt(cols, rows, cellW, cellH, k)
    {
      var i: int := -cx0;
      while i < -cx0 + cols
        invariant -cx0 <= i <= -cx0 + cols
        invariant idx == |out| == (j + cy0) * cols + (i + cx0)
        invariant forall k :: 0 <= k < |out| ==> out[k] == CellAt(cols, rows, cellW, cellH, k)
      {
        DivModUnique(idx, cols, j + cy0, i + cx0);
        out := out + [Cell(i as real * cellW, -(j as real) * cellH, idx)];
        idx := idx + 1;
        i := i + 1;
      }
      assert (j + cy0) * cols + cols == (j + 1 + cy0) * cols;
      j := j + 1;
    }
  }

  /** The grid is centred: cell number floor(rows/2) * cols + floor(cols/2)
      sits at the origin. */
  lemma OriginCell(cols: nat, rows: nat, cellW: real, cellH: real)
    requires cols > 0 && rows > 0
    ensures var k := (rows / 2) * cols + cols / 2;
      k < cols * rows && CellAt(cols, rows, cellW, cellH, k) == Cell(0.0, 0.0, k)
  {
    var k := (rows / 2) * cols + cols / 2;
    DivModUnique(k, cols, rows / 2, cols / 2);
    assert k < (rows / 2 + 1) * cols;
    assert rows / 2 + 1 <= rows;
    MulMonotone(rows / 2 + 1, rows, cols);
  }

  lemma MulMonotone(a: nat, b: nat, c: nat)
    requires a <= b
    ensures a * c <= b * c
  {
    assert b * c - a * c == (b - a) * c;
    NonNegMul(b - a, c);
  }

  /** With positive cell pitches no two cells share a position. */
  lemma CellsDistinct(cols: nat, rows: nat, cellW: real, cellH: real, k1: nat, k2: nat)
    requires cols > 0 && cellW > 0.0 && cellH > 0.0 && k1 != k2
    ensures CellAt(cols, rows, cellW, cellH, k1).x != CellAt(cols, rows, cellW, cellH, k2).x
         || CellAt(cols, rows, cellW, cellH, k1).y != CellAt(cols, rows, cellW, cellH, k2).y
  {
    var i1, i2 := k1 % cols - cols / 2, k2 % cols - cols / 2;
    var j1, j2 := k1 / cols - rows / 2, k2 / cols - rows / 2;
    assert k1 == (k1 / cols) * cols + k1 % cols;
    assert k2 == (k2 / cols) * cols + k2 % cols;
    if i1 == i2 {
      assert j1 != j2;
      DistinctMultiples(j1, j2, cellH);
    } else {
      DistinctMultiples(i1, i2, cellW);
    }
  }

  lemma DistinctMultiples(a: int, b: int, w: real)
    requires a != b && w > 0.0
    ensures a as real * w != b as real * w
    ensures -(a as real) * w != -(b as real) * w
  {
    assert a as real * w - b as real * w == (a - b) as real * w;
    if a > b {
      assert (a - b) as real * w > 0.0;
    } else {
      assert (b - a) as real * w > 0.0;
      assert (a - b) as real * w == -((b - a) as real * w);
    }
  }

  /* ---------------- speed, zoom and tilt ---------------- */

  /** min(1, |vel| / MAX_V) for a non-negative speed magnitude. */
  function Speed(magnitude: real): (s: real)
    ensures 0.0 <= magnitude ==> 0.0 <= s <= 1.0
    ensures magnitude <= MaxV ==> s == magnitude / MaxV
  {
    Min(1.0, magnitude / MaxV)
  }

  /** The stage shrinks by at most ZOOM_SCALE_MAX at full speed. */
  function TargetScale(speed: real): (t: real)
    ensures 0.0 <= speed <= 1.0 ==> 1.0 - ZoomScaleMax <= t <= 1.0
    ensures speed == 0.0 ==> t == 1.0
  {
    1.0 - speed * ZoomScaleMax
  }

  /** The tilt aimed at for a velocity component: proportional to it and
      at most TILT_MAX for a velocity within [-MAX_V, MAX_V]. */
  function TargetTilt(v: real): (t: real)
    ensures -MaxV <= v <= MaxV ==> -TiltMax <= t <= TiltMax
    ensures v == 0.0 ==> t == 0.0
  {
    (v / MaxV) * TiltMax
  }

  /* ---------------- rig ---------------- */

  class Rig {
    var off: P2
    var target: P2
    var vel: P2
    var down: bool
    var lx: real
    var ly: real
    var lastT: real
    var scale: real
    var rx: real
    var ry: real
    /** Math.hypot */
    const hypot: (real, real) -> real

    /** Velocities never exceed MAX_V, so the view stays within its zoom
      and tilt ranges. */
    ghost predicate Valid()
      reads this
    {
      && (forall a, b :: hypot(a, b) >= 0.0)
      && -MaxV <= vel.x <= MaxV && -MaxV <= vel.y <= MaxV
      && 1.0 - ZoomScaleMax <= scale <= 1.0
      && -TiltMax <= rx <= TiltMax && -TiltMax <= ry <= TiltMax
    }

    constructor (hypot: (real, real) -> real)
      requires forall a, b :: hypot(a, b) >= 0.0
      ensures Valid()
      ensures this.hypot == hypot
      ensures off == InfiniteGrid.P2(0.0, 0.0) && target == InfiniteGrid.P2(0.0, 0.0) && vel == InfiniteGrid.P2(0.0, 0.0)
      ensures !down && lx == 0.0 && ly == 0.0 && lastT == 0.0
      ensures scale == 1.0 && rx == 0.0 && ry == 0.0
    {
      this.hypot := hypot;
      off, target, vel := InfiniteGrid.P2(0.0, 0.0), InfiniteGrid.P2(0.0, 0.0), InfiniteGrid.P2(0.0, 0.0);
      down, lx, ly, lastT := false, 0.0, 0.0, 0.0;
      scale, rx, ry := 1.0, 0.0, 0.0;
    }

    /** Pointer or touch down: start dragging and stop any inertia. */
    method PointerDown(clientX: real, clientY: real, now: real)
      requires Valid()
      modifies this
      ensures Valid()
      ensures down && lx == clientX && ly == clientY && lastT == now && vel == InfiniteGrid.P2(0.0, 0.0)
      ensures off == old(off) && target == old(target)
      ensures scale == old(scale) && rx == old(rx) && ry == old(ry)
    {
      down, lx, ly, lastT := true, clientX, clientY, now;
      vel := InfiniteGrid.P2(0.0, 0.0);
    }

    /** Pointer or touch move while dragging: the gained delta moves the
      target right and up (screen y points down) and sets a clamped
      velocity; without a drag nothing changes. */
    method PointerMove(clientX: real, clientY: real, now: real)
      requires Valid()
      modifies this
      ensures Valid()
      ensures !old(down) ==> target == old(target) && vel == old(vel) && lx == old(lx) && ly == old(ly) && lastT == old(lastT)
      ensures old(down) ==>
        var dx, dy := (clientX - old(lx)) * DragGain, (clientY - old(ly)) * DragGain;
        && target == InfiniteGrid.P2(old(target.x) + dx, old(target.y) - dy)
        && vel == InfiniteGrid.P2(DragVelocity(dx, now, old(lastT), MaxV), DragVelocity(-dy, now, old(lastT), MaxV))
        && lx == clientX && ly == clientY && lastT == now
      ensures down == old(down) && off == old(off)
      ensures scale == old(scale) && rx == old(rx) && ry == old(ry)
    {
      if !down {
        return;
      }
      var dx := (clientX - lx) * DragGain;
      var dy := (clientY - ly) * DragGain;
      lx, ly := clientX, clientY;
      target := InfiniteGrid.P2(target.x + dx, target.y - dy);
      var t0 := lastT;
      lastT := now;
      vel := InfiniteGrid.P2(DragVelocity(dx, now, t0, MaxV), DragVelocity(-dy, now, t0, MaxV));
    }

    /** Pointer up or touch end: dragging stops, inertia carries on. */
    method PointerUp()
      requires Valid()
      modifies this
      ensures Valid()
      ensures !down
      ensures off == old(off) && target == old(target) && vel == old(vel)
      ensures lx == old(lx) && ly == old(ly) && lastT == old(lastT)
      ensures scale == old(scale) && rx == old(rx) && ry == old(ry)
    {
      down := false;
    }

    /** Wheel: the gained delta moves the target (vertical scroll inverted)
      and a quarter of the raw delta is added to the clamped velocity. */
    method Wheel(deltaX: Option<real>, deltaY: Option<real>)
      requires Valid()
      modifies this
      ensures Valid()
      ensures var wx, wy := InfiniteGrid.WheelDelta(deltaX), -InfiniteGrid.WheelDelta(deltaY);
        && target == InfiniteGrid.P2(old(target.x) + wx * WheelGain, old(target.y) + wy * WheelGain)
        && vel == InfiniteGrid.P2(Clamp(old(vel.x) + wx * 0.25, -MaxV, MaxV), Clamp(old(vel.y) + wy * 0.25, -MaxV, MaxV))
      ensures down == old(down) && off == old(off)
      ensures lx == old(lx) && ly == old(ly) && lastT == old(lastT)
      ensures scale == old(scale) && rx == old(rx) && ry == old(ry)
    {
      var wx := InfiniteGrid.WheelDelta(deltaX);
      var wy := -InfiniteGrid.WheelDelta(deltaY);
      target := InfiniteGrid.P2(target.x + wx * WheelGain, target.y + wy * WheelGain);
      vel := InfiniteGrid.P2(Clamp(vel.x + wx * 0.25, -MaxV, MaxV), Clamp(vel.y + wy * 0.25, -MaxV, MaxV));
    }

    /** One frame: inertia moves the target and damps the velocity whether
      or not a drag is in progress, the offset follows the target, and the
      returned (ox, oy) is the offset wrapped into one cell. The zoom and
      tilt each close a fixed fraction of the gap to their speed-driven
      targets. */
    method Frame() returns (ox: real, oy: real)
      requires Valid()
      modifies this
      ensures Valid()
      ensures target == InfiniteGrid.P2(old(target.x) + old(vel.x), old(target.y) + old(vel.y))
      ensures vel == InfiniteGrid.P2(old(vel.x) * Damping, old(vel.y) * Damping)
      ensures off == InfiniteGrid.P2(Approach(old(off.x), target.x, Follow), Approach(old(off.y), target.y, Follow))
      ensures ox == InfiniteGrid.WrapMod(off.x, PitchW) && oy == InfiniteGrid.WrapMod(off.y, PitchH)
      ensures 0.0 <= ox < PitchW && 0.0 <= oy < PitchH
      ensures scale == Approach(old(scale), TargetScale(Speed(hypot(vel.x, vel.y))), ScaleSmooth)
      ensures ry == Approach(old(ry), TargetTilt(-vel.x), RotSmooth)
      ensures rx == Approach(old(rx), TargetTilt(vel.y), RotSmooth)
      ensures down == old(down) && lx == old(lx) && ly == old(ly) && lastT == old(lastT)
    {
      target := InfiniteGrid.P2(target.x + vel.x, target.y + vel.y);
      DampedStaysBounded(vel.x);
      DampedStaysBounded(vel.y);
      vel := InfiniteGrid.P2(vel.x * Damping, vel.y * Damping);
      off := InfiniteGrid.P2(Approach(off.x, target.x, Follow), Approach(off.y, target.y, Follow));
      ox := InfiniteGrid.WrapMod(off.x, PitchW);
      oy := InfiniteGrid.WrapMod(off.y, PitchH);
      InfiniteGrid.WrapModInRange(off.x, PitchW);
      InfiniteGrid.WrapModInRange(off.y, PitchH);
      var speed := Speed(hypot(vel.x, vel.y));
      scale := Approach(scale, TargetScale(speed), ScaleSmooth);
      ry := Approach(ry, TargetTilt(-vel.x), RotSmooth);
      rx := Approach(rx, TargetTilt(vel.y), RotSmooth);
    }
  }

  /** Damping keeps a velocity within [-MAX_V, MAX_V]. */
  lemma DampedStaysBounded(v: real)
    requires -MaxV <= v <= MaxV
    ensures -MaxV <= v * Damping <= MaxV
  {
    MulUnitBound(v, Damping);
  }
}
