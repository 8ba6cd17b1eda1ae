/** The headline's pixel reveal: the SVG viewBox is cut into a grid of
    tiles that light up one by one at a fixed step (in GSAP's random
    order), with an optional cue partway through. */
module HeadlineReveal {
  import opened Common

  const DefaultW: real := 1062.0
  const DefaultH: real := 348.0
  const DefaultCols: nat := 30
  const MinRows: int := 6
  const MinStep: real := 0.001

  /* ---------------- grid ---------------- */

  /** `rows ?? max(6, round(h / w * cols))` */
  function GridRows(rows: Option<int>, w: real, h: real, cols: nat): (r: int)
    requires w != 0.0
    ensures rows.Some? ==> r == rows.value
    ensures rows.None? ==> r >= MinRows
    ensures rows.None? && Round(h / w * cols as real) >= MinRows ==> r == Round(h / w * cols as real)
  {
    if rows.Some? then rows.value
    else if Round(h / w * cols as real) >= MinRows then Round(h / w * cols as real)
    else MinRows
  }

  /** With the default 1062 x 348 viewBox and 30 columns there are 10 rows. */
  lemma DefaultGridRows()
    ensures GridRows(None, DefaultW, DefaultH, DefaultCols) == 10
  {
    var q := DefaultH / DefaultW * DefaultCols as real;
    assert q == 10440.0 / 1062.0;
    assert 10.0 <= q + 0.5 < 11.0;
  }

  datatype Tile = Tile(x: real, y: real, w: real, h: real)

  /** The k-th tile in row-major order: column k % cols, row k / cols. */
  function TileAt(cols: nat, tileW: real, tileH: real, k: nat): Tile
    requires cols > 0
  {
    Tile((k % cols) as real * tileW, (k / cols) as real * tileH, tileW, tileH)
  }

  /** The tiles, row by row from the top, each row left to right. */
  method Tiles(cols: nat, rows: nat, tileW: real, tileH: real) returns (out: seq<Tile>)
    ensures |out| == rows * cols
    ensures cols > 0 ==> forall k :: 0 <= k < |out| ==> out[k] == TileAt(cols, tileW, tileH, k)
  {
    out := [];
    var j := 0;
    while j < rows
      invariant 0 <= j <= rows
      invariant |out| == j * cols
      invariant cols > 0 ==> forall k :: 0 <= k < |out| ==> out[k] == TileAt(cols, tileW, tileH, k)
    {
      var i := 0;
      while i < cols
        invariant 0 <= i <= cols
        invariant |out| == j * cols + i
        invariant cols > 0 ==> forall k :: 0 <= k < |out| ==> out[k] == TileAt(cols, tileW, tileH, k)
      {
        DivModUnique(|out|, cols, j, i);
        out := out + [Tile(i as real * tileW, j as real * tileH, tileW, tileH)];
        i := i + 1;
      }
      j := j + 1;
    }
  }

  predicate Inside(t: Tile, px: real, py: real)
  {
    t.x <= px < t.x + t.w && t.y <= py < t.y + t.h
  }

  /** The tiles cover the viewBox: every point of [0, w) x [0, h) lies in
      the tile returned, which is one of the cols * rows tiles. */
  lemma TileContaining(cols: nat, rows: nat, w: real, h: real, px: real, py: real) returns (k: nat)
    requires cols > 0 && rows > 0 && w > 0.0 && h > 0.0
    requires 0.0 <= px < w && 0.0 <= py < h
    ensures k < cols * rows
    ensures Inside(TileAt(cols, w / cols as real, h / rows as real, k), px, py)
  {
    var tw, th := w / cols as real, h / rows as real;
    var i := CellOf(px, cols, w);
    var j := CellOf(py, rows, h);
    k := j * cols + i;
    DivModUnique(k, cols, j, i);
    assert k < (j + 1) * cols;
    assert (j + 1) * cols <= rows * cols by {
      assert rows * cols - (j + 1) * cols == (rows - j - 1) * cols;
      NonNegMul(rows - j - 1, cols);
    }
  }

  /** The column (or row) of a coordinate in [0, extent) cut into n equal
      parts. */
  lemma CellOf(p: real, n: nat, extent: real) returns (i: nat)
    requires n > 0 && extent > 0.0 && 0.0 <= p < extent
    ensures i < n
    ensures i as real * (extent / n as real) <= p < i as real * (extent / n as real) + extent / n as real
  {
    var s := extent / n as real;
    assert s > 0.0;
    var q := p / s;
    assert p == q * s;
    assert extent == n as real * s;
    NonNegFactor(q, s, p);
    assert (n as real - q) * s == extent - p;
    PositiveProduct(n as real - q, s);
    i := Floor(q);
    assert i as real <= q < i as real + 1.0;
    assert i as real * s <= p by {
      assert p - i as real * s == (q - i as real) * s;
      assert (q - i as real) * s >= 0.0;
    }
    assert p < i as real * s + s by {
      var g := i as real + 1.0 - q;
      assert i as real * s + s - p == g * s;
      PositiveMul(g, s);
    }
  }

  /* ---------------- tile refs ---------------- */

  /** The ref array of the tile rectangles: `true` where a rectangle is
      mounted. */
  class TileRefs {
    var slots: seq<bool>

    constructor ()
      ensures slots == []
    {
      slots := [];
    }

    /** On render: an empty array or one of the wrong length is replaced by
      `n` empty slots; otherwise it is kept. */
    method Sync(n: nat)
      modifies this
      ensures |slots| == n
      ensures |old(slots)| == 0 || |old(slots)| != n ==> forall i :: 0 <= i < n ==> !slots[i]
      ensures 0 < |old(slots)| == n ==> slots == old(slots)
    {
      if |slots| == 0 || |slots| != n {
        slots := seq(n, _ => false);
      }
    }

    /** The ref callback of rectangle i (false when it unmounts). */
    method SetRef(i: nat, mounted: bool)
      requires i < |slots|
      modifies this
      ensures slots == old(slots)[i := mounted]
    {
      slots := slots[i := mounted];
    }
  }

  /** `tilesRef.current.filter(Boolean).length` */
  function Mounted(slots: seq<bool>): (n: nat)
    ensures n <= |slots|
    ensures n == 0 <==> forall i :: 0 <= i < |slots| ==> !slots[i]
  {
    if |slots| == 0 then 0
    else (if slots[|slots| - 1] then 1 else 0) + Mounted(slots[..|slots| - 1])
  }

  /* ---------------- timeline ---------------- */

  /** The timeline built for n mounted tiles: the step between tiles, the
      time the last one lights, and the canvas cue time if a cue handler
      was given. */
  datatype Plan = Plan(eachStep: real, totalTime: real, cue: Option<real>)

  /** `stagger` when it is a positive number, else the duration spread
      over the tiles, at least 0.001. */
  function EachStep(stagger: Option<real>, duration: real, n: nat): (s: real)
    ensures s > 0.0
    ensures stagger.Some? && stagger.value > 0.0 ==> s == stagger.value
    ensures !(stagger.Some? && stagger.value > 0.0) ==> s >= MinStep && (s == MinStep || s * Max(1.0, n as real) == duration)
  {
    if stagger.Some? && stagger.value > 0.0 then stagger.value
    else
      var d := Max(1.0, n as real);
      assert (duration / d) * d == duration;
      Max(MinStep, duration / d)
  }

  /** No timeline without mounted tiles; otherwise the last of n tiles
      lights at eachStep * (n - 1), and the cue, when wanted, at
      totalTime * cueAt. */
  function TimelinePlan(slots: seq<bool>, stagger: Option<real>, duration: real, cueAt: real, hasCue: bool): (p: Option<Plan>)
    ensures Mounted(slots) == 0 <==> p.None?
    ensures p.Some? ==> p.value.totalTime == p.value.eachStep * (Mounted(slots) - 1) as real
    ensures p.Some? ==> (p.value.cue.Some? <==> hasCue)
    ensures p.Some? && hasCue ==> p.value.cue.value == p.value.totalTime * cueAt
  {
    var n := Mounted(slots);
    if n == 0 then None
    else
      var each := EachStep(stagger, duration, n);
      var total := each * Max(0.0, (n - 1) as real);
      Some(Plan(each, total, if hasCue then Some(total * cueAt) else None))
  }

  /** The r-th tile of the random order lights at r * eachStep, never
      before the start nor after totalTime. */
  lemma LightTimeInRange(p: Plan, n: nat, r: nat)
    requires p.eachStep > 0.0 && p.totalTime == p.eachStep * (n - 1) as real && r < n
    ensures 0.0 <= r as real * p.eachStep <= p.totalTime
  {
    assert p.totalTime - r as real * p.eachStep == ((n - 1 - r) as real) * p.eachStep;
    NonNegProduct((n - 1 - r) as real, p.eachStep);
  }

  /** Without an explicit stagger the reveal ends no later than the
      duration, as long as the spread step is not floored at 0.001. */
  lemma RevealFitsDuration(n: nat, duration: real)
    requires n > 0 && duration / n as real >= MinStep
    ensures EachStep(None, duration, n) * (n - 1) as real <= duration
  {
    var each := EachStep(None, duration, n);
    assert each == duration / n as real;
    assert each * n as real == duration;
    assert duration - each * (n - 1) as real == each;
  }

  /** A cue fraction in [0, 1] falls inside the reveal. */
  lemma CueInsideReveal(p: Plan, cueAt: real)
    requires p.totalTime >= 0.0 && 0.0 <= cueAt <= 1.0 && p.cue == Some(p.totalTime * cueAt)
    ensures 0.0 <= p.cue.value <= p.totalTime
  {
    MulUnitBound(p.totalTime, cueAt);
    assert p.cue.value == p.totalTime * cueAt;
  }
}
