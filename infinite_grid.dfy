/** The endless works grid: a tile of COLS x ROWS cells repeated in both
    directions, scrolled by drag, wheel and inertia, and wrapped back into
    one tile every frame. */
module InfiniteGrid {
  import opened Common

  const Cols: nat := 6
  const Rows: nat := 3
  const CellW: real := 320.0
  const CellH: real := 320.0
  const Gap: real := 0.0
  const DragGain: real := 1.6
  const WheelGain: real := 0.5
  const MaxV: real := 14.0
  const Damping: real := 0.93
  const Follow: real := 0.18
  const MouseGain: real := 22.0
  const MouseSmooth: real := 0.08
  const TileW: real := Cols as real * (CellW + Gap)
  const TileH: real := Rows as real * (CellH + Gap)

  datatype P2 = P2(x: real, y: real)

  /* ---------------- wrapping ---------------- */

  /** ((n % m) + m) % m with JavaScript's truncating `%`. */
  function WrapMod(n: real, m: real): real
    requires m != 0.0
  {
    JsRem(JsRem(n, m) + m, m)
  }

  /** For a positive modulus the wrapped value lies in [0, m) and differs
      from n by a whole number of periods. */
  lemma WrapModInRange(n: real, m: real)
    requires m > 0.0
    ensures 0.0 <= WrapMod(n, m) < m
    ensures exists k: int :: n - WrapMod(n, m) == Multiple(k, m)
  {
    var a := JsRem(n, m);
    JsRemBounds(n, m);
    var x := a + m;
    JsRemBounds(x, m);
    var k1, k2 := Trunc(n / m), Trunc(x / m);
    var r := WrapMod(n, m);
    assert n - a == m * (k1 as real);
    assert x - r == m * (k2 as real);
    SumOfMultiples(m, k1, k2, n - r);
    assert n - r == Multiple(k1 + k2 - 1, m);
  }

  function Multiple(k: int, m: real): real
  {
    k as real * m
  }

  lemma SumOfMultiples(m: real, k1: int, k2: int, d: real)
    requires d == m * (k1 as real) + m * (k2 as real) - m
    ensures d == (k1 + k2 - 1) as real * m
  {
  }

  /* ---------------- cells and tiles ---------------- */

  /** `items[k]` in JavaScript: undefined past the end. */
  function Lookup<T>(items: seq<T>, k: nat): Option<T>
  {
    if k < |items| then Some(items[k]) else None
  }

  /** baseCells: COLS x ROWS entries, entry i being `items[i % max(len, 1)]`. */
  function BaseCells<T>(items: seq<T>): (cells: seq<Option<T>>)
    ensures |cells| == Cols * Rows
  {
    var n := if |items| > 1 then |items| else 1;
    seq(Cols * Rows, i requires 0 <= i => Lookup(items, i % n))
  }

  /** With no items every cell is empty; otherwise the items repeat
      cyclically from the first cell. */
  lemma BaseCellsCycle<T>(items: seq<T>)
    ensures |items| == 0 ==> forall i :: 0 <= i < Cols * Rows ==> BaseCells(items)[i] == None
    ensures |items| > 0 ==> forall i :: 0 <= i < Cols * Rows ==> BaseCells(items)[i] == Some(items[i % |items|])
    ensures |items| > 0 ==> forall i :: 0 <= i < Cols * Rows - |items| ==> BaseCells(items)[i + |items|] == BaseCells(items)[i]
  {
    if |items| == 0 {
      forall i | 0 <= i < Cols * Rows
        ensures BaseCells(items)[i] == None
      {
        assert BaseCells(items)[i] == Lookup(items, i % 1);
      }
    } else {
      forall i | 0 <= i < Cols * Rows
        ensures BaseCells(items)[i] == Some(items[i % |items|])
      {
        assert BaseCells(items)[i] == Lookup(items, i % |items|);
      }
      forall i | 0 <= i < Cols * Rows - |items|
        ensures BaseCells(items)[i + |items|] == BaseCells(items)[i]
      {
        ModShift(i, |items|);
      }
    }
  }

  lemma ModShift(i: nat, n: nat)
    requires n > 0
    ensures (i + n) % n == i % n
  {
    assert i == (i / n) * n + i % n;
    DivModUnique(i + n, n, i / n + 1, i % n);
  }

  /** max(1, ceil(viewport / tile) + 3) */
  function TileCount(viewport: real, tile: real): (c: int)
    requires tile > 0.0
    ensures c >= 1
    ensures 0.0 <= viewport ==> c == Ceil(viewport / tile) + 3
  {
    if Ceil(viewport / tile) + 3 >= 1 then Ceil(viewport / tile) + 3 else 1
  }

  /** The repeated tiles span at least the viewport plus three tiles. */
  lemma TileCountCovers(viewport: real, tile: real)
    requires tile > 0.0 && 0.0 <= viewport
    ensures TileCount(viewport, tile) as real * tile >= viewport + 3.0 * tile
  {
    var q := viewport / tile;
    CeilTimesCovers(q, Ceil(q) as real, tile, viewport);
  }

  lemma CeilTimesCovers(q: real, c: real, tile: real, viewport: real)
    requires tile > 0.0 && q <= c && viewport == q * tile
    ensures c * tile >= viewport
  {
    assert c * tile - q * tile == (c - q) * tile;
  }

  datatype TileCoord = TileCoord(tx: int, ty: int)

  /** One row of clones: tx from -1 to tilesX. */
  function TileRow(tilesX: nat, ty: int): (row: seq<TileCoord>)
    ensures |row| == tilesX + 2
  {
    seq(tilesX + 2, i => TileCoord(i - 1, ty))
  }

  /** The rows from index j on (ty = j - 1), concatenated. */
  function TileRowsFrom(tilesX: nat, tilesY: nat, j: nat): seq<TileCoord>
    decreases tilesY + 2 - j
  {
    if j >= tilesY + 2 then [] else TileRow(tilesX, j - 1) + TileRowsFrom(tilesX, tilesY, j + 1)
  }

  /** tileCoords: the rows for ty = -1 .. tilesY, each listing tx = -1 .. tilesX. */
  function TileCoords(tilesX: nat, tilesY: nat): seq<TileCoord>
  {
    TileRowsFrom(tilesX, tilesY, 0)
  }

  /** Entry k of the rows from j on is column k mod w, row j + k div w. */
  lemma {:induction false} TileRowsFromIndex(tilesX: nat, tilesY: nat, j: nat)
    requires j <= tilesY + 2
    ensures |TileRowsFrom(tilesX, tilesY, j)| == (tilesY + 2 - j) * (tilesX + 2)
    ensures forall k :: 0 <= k < |TileRowsFrom(tilesX, tilesY, j)| ==>
      TileRowsFrom(tilesX, tilesY, j)[k] == TileCoord(k % (tilesX + 2) - 1, j + k / (tilesX + 2) - 1)
    decreases tilesY + 2 - j
  {
    var w := tilesX + 2;
    if j < tilesY + 2 {
      TileRowsFromIndex(tilesX, tilesY, j + 1);
      var rest := TileRowsFrom(tilesX, tilesY, j + 1);
      var all := TileRowsFrom(tilesX, tilesY, j);
      assert all == TileRow(tilesX, j - 1) + rest;
      assert |rest| == (tilesY + 2 - (j + 1)) * w;
      assert |all| == w + (tilesY + 2 - (j + 1)) * w;
      assert w + (tilesY + 2 - (j + 1)) * w == (tilesY + 2 - j) * w;
      forall k | 0 <= k < |all|
        ensures all[k] == TileCoord(k % w - 1, j + k / w - 1)
      {
        if k < w {
          DivModUnique(k, w, 0, k);
        } else {
          DivModShift(k, w);
          assert all[k] == rest[k - w];
        }
      }
    }
  }

  lemma DivModShift(k: int, w: int)
    requires w > 0 && k >= w
    ensures (k - w) % w == k % w && (k - w) / w == k / w - 1
  {
    assert k == (k / w) * w + k % w;
    DivModUnique(k - w, w, k / w - 1, k % w);
  }

  /** tileCoords has (tilesX + 2)(tilesY + 2) entries, ordered by row then
      column, with tx in [-1, tilesX] and ty in [-1, tilesY]. */
  lemma TileCoordsLayout(tilesX: nat, tilesY: nat)
    ensures |TileCoords(tilesX, tilesY)| == (tilesX + 2) * (tilesY + 2)
    ensures forall k :: 0 <= k < |TileCoords(tilesX, tilesY)| ==>
      TileCoords(tilesX, tilesY)[k] == TileCoord(k % (tilesX + 2) - 1, k / (tilesX + 2) - 1)
    ensures forall k :: 0 <= k < |TileCoords(tilesX, tilesY)| ==>
      -1 <= TileCoords(tilesX, tilesY)[k].tx <= tilesX && -1 <= TileCoords(tilesX, tilesY)[k].ty <= tilesY
  {
    TileRowsFromIndex(tilesX, tilesY, 0);
    var w := tilesX + 2;
    forall k | 0 <= k < (tilesY + 2) * w
      ensures k / w <= tilesY + 1
    {
      DivBelow(k, w, tilesY + 2);
    }
  }

  /** Only the centre tile reveals its cells, and only before the first
      reveal completed. */
  predicate DoReveal(revealedOnce: bool, t: TileCoord)
  {
    !revealedOnce && t.tx == 0 && t.ty == 0
  }

  /** Cell i of a tile: column i % COLS, row (i / COLS) | 0. */
  function CellOrigin(i: nat): P2
  {
    P2((i % Cols) as real * (CellW + Gap), (Trunc(i as real / Cols as real)) as real * (CellH + Gap))
  }

  /** Cell i's origin is its column and row, in integer arithmetic. */
  lemma CellOriginGrid(i: nat)
    ensures CellOrigin(i) == P2((i % 6) as real * 320.0, (i / 6) as real * 320.0)
  {
    TruncIsDiv(i, Cols);
  }

  /** The COLS x ROWS cells of a tile sit inside the tile. */
  lemma CellOriginInTile(i: nat)
    requires i < Cols * Rows
    ensures 0.0 <= CellOrigin(i).x <= TileW - CellW && 0.0 <= CellOrigin(i).y <= TileH - CellH
  {
    CellOriginGrid(i);
    DivBelow(i, 6, 3);
  }

  /** Distinct cells of a tile sit at distinct places. */
  lemma CellOriginsDistinct(i: nat, j: nat)
    requires i < Cols * Rows && j < Cols * Rows && i != j
    ensures CellOrigin(i) != CellOrigin(j)
  {
    CellOriginGrid(i);
    CellOriginGrid(j);
    assert i == (i / 6) * 6 + i % 6;
    assert j == (j / 6) * 6 + j % 6;
  }

  lemma TruncIsDiv(i: nat, n: nat)
    requires n > 0
    ensures Trunc(i as real / n as real) == i / n
  {
    var q := i / n;
    assert i == q * n + i % n;
    assert (q as real) * (n as real) <= i as real < (q as real + 1.0) * (n as real);
    DivBetween(i as real, n as real, q as real);
  }

  /* ---------------- drag, wheel and inertia ---------------- */

  /** `e.deltaX || 0`: a missing delta counts as zero. */
  function WheelDelta(d: Option<real>): real
  {
    if d.Some? then d.value else 0.0
  }

  /** The released state of one axis after one tick: target moves by the
      velocity, then the velocity is damped. */
  datatype Axis = Axis(off: real, target: real, vel: real)

  function ReleasedTick(a: Axis): Axis
  {
    var t := a.target + a.vel;
    Axis(Approach(a.off, t, Follow), t, a.vel * Damping)
  }

  function ReleasedTicks(a: Axis, k: nat): Axis
    decreases k
  {
    if k == 0 then a else ReleasedTicks(ReleasedTick(a), k - 1)
  }

  function Pow(b: real, k: nat): real
  {
    if k == 0 then 1.0 else b * Pow(b, k - 1)
  }

  /** Released inertia decays geometrically: after k ticks the velocity is
      DAMPING^k of what it was, so it never grows. */
  lemma {:induction false} InertiaDecays(a: Axis, k: nat)
    ensures ReleasedTicks(a, k).vel == Pow(Damping, k) * a.vel
    ensures 0.0 < Pow(Damping, k) <= 1.0
    decreases k
  {
    if k > 0 {
      InertiaDecays(ReleasedTick(a), k - 1);
      var p := Pow(Damping, k - 1);
      assert ReleasedTicks(a, k).vel == p * (a.vel * Damping);
      assert p * (a.vel * Damping) == (Damping * p) * a.vel;
      MulUnitBound(p, Damping);
    }
  }

  class Grid {
    var off: P2
    var target: P2
    var vel: P2
    var down: bool
    var lx: real
    var ly: real
    var lastT: real
    var cursor: P2
    var mshift: P2
    var revealedOnce: bool

    constructor ()
      ensures off == P2(0.0, 0.0) && target == P2(0.0, 0.0) && vel == P2(0.0, 0.0)
      ensures !down && lx == 0.0 && ly == 0.0 && lastT == 0.0
      ensures cursor == P2(0.0, 0.0) && mshift == P2(0.0, 0.0) && !revealedOnce
    {
      off, target, vel := P2(0.0, 0.0), P2(0.0, 0.0), P2(0.0, 0.0);
      down, lx, ly, lastT := false, 0.0, 0.0, 0.0;
      cursor, mshift := P2(0.0, 0.0), P2(0.0, 0.0);
      revealedOnce := false;
    }

    /** One animation frame. While dragging only the offset follows the
      target; when released the target first takes the velocity, which is
      then damped. The parallax shift eases towards the cursor, and the
      offset is wrapped into one tile. */
    method Tick() returns (base: P2)
      modifies this
      ensures old(down) ==> target == old(target) && vel == old(vel)
      ensures !old(down) ==>
        target == P2(old(target.x) + old(vel.x), old(target.y) + old(vel.y))
        && vel == P2(old(vel.x) * Damping, old(vel.y) * Damping)
      ensures off == P2(Approach(old(off.x), target.x, Follow), Approach(old(off.y), target.y, Follow))
      ensures mshift == P2(old(mshift.x) + (old(cursor.x) * MouseGain - old(mshift.x)) * MouseSmooth,
                           old(mshift.y) + (old(cursor.y) * MouseGain - old(mshift.y)) * MouseSmooth)
      ensures base == P2(WrapMod(off.x, TileW), WrapMod(off.y, TileH))
      ensures 0.0 <= base.x < TileW && 0.0 <= base.y < TileH
      ensures down == old(down) && cursor == old(cursor) && revealedOnce == old(revealedOnce)
      ensures lx == old(lx) && ly == old(ly) && lastT == old(lastT)
    {
      if !down {
        target := P2(target.x + vel.x, target.y + vel.y);
        vel := P2(vel.x * Damping, vel.y * Damping);
      }
      off := P2(Approach(off.x, target.x, Follow), Approach(off.y, target.y, Follow));
      mshift := P2(mshift.x + (cursor.x * MouseGain - mshift.x) * MouseSmooth,
                   mshift.y + (cursor.y * MouseGain - mshift.y) * MouseSmooth);
      base := P2(WrapMod(off.x, TileW), WrapMod(off.y, TileH));
      WrapModInRange(off.x, TileW);
      WrapModInRange(off.y, TileH);
    }

    /** Pointer down: start dragging from the pointer and stop any inertia. */
    method PointerDown(clientX: real, clientY: real, now: real)
      modifies this
      ensures down && lx == clientX && ly == clientY && lastT == now && vel == P2(0.0, 0.0)
      ensures off == old(off) && target == old(target) && cursor == old(cursor)
      ensures mshift == old(mshift) && revealedOnce == old(revealedOnce)
    {
      down, lx, ly, lastT := true, clientX, clientY, now;
      vel := P2(0.0, 0.0);
    }

    /** Pointer move: the cursor is always updated; when dragging, the
      gained delta moves the target and sets a clamped velocity. */
    method PointerMove(clientX: real, clientY: real, now: real, innerW: real, innerH: real)
      requires innerW > 0.0 && innerH > 0.0
      modifies this
      ensures cursor == P2((clientX / innerW - 0.5) * 2.0, (clientY / innerH - 0.5) * -2.0)
      ensures !old(down) ==> target == old(target) && vel == old(vel) && lx == old(lx) && ly == old(ly) && lastT == old(lastT)
      ensures old(down) ==>
        var dx, dy := (clientX - old(lx)) * DragGain, (clientY - old(ly)) * DragGain;
        && target == P2(old(target.x) + dx, old(target.y) + dy)
        && vel == P2(DragVelocity(dx, now, old(lastT), MaxV), DragVelocity(dy, now, old(lastT), MaxV))
        && lx == clientX && ly == clientY && lastT == now
      ensures -MaxV <= vel.x <= MaxV || !old(down)
      ensures down == old(down) && off == old(off) && mshift == old(mshift) && revealedOnce == old(revealedOnce)
    {
      cursor := P2((clientX / innerW - 0.5) * 2.0, (clientY / innerH - 0.5) * -2.0);
      if !down {
        return;
      }
      var dx := (clientX - lx) * DragGain;
      var dy := (clientY - ly) * DragGain;
      lx, ly := clientX, clientY;
      target := P2(target.x + dx, target.y + dy);
      var t0 := lastT;
      lastT := now;
      vel := P2(DragVelocity(dx, now, t0, MaxV), DragVelocity(dy, now, t0, MaxV));
    }

    /** Pointer up (and cancel): only dragging stops; inertia takes over. */
    method PointerUp()
      modifies this
      ensures !down
      ensures off == old(off) && target == old(target) && vel == old(vel) && cursor == old(cursor)
      ensures lx == old(lx) && ly == old(ly) && lastT == old(lastT)
      ensures mshift == old(mshift) && revealedOnce == old(revealedOnce)
    {
      down := false;
    }

    /** Wheel: the gained delta moves the target, and a quarter of it is
      added to the velocity, clamped to [-MAX_V, MAX_V]. */
    method Wheel(deltaX: Option<real>, deltaY: Option<real>)
      modifies this
      ensures var dx, dy := WheelDelta(deltaX) * WheelGain, WheelDelta(deltaY) * WheelGain;
        && target == P2(old(target.x) + dx, old(target.y) + dy)
        && vel == P2(Clamp(old(vel.x) + dx * 0.25, -MaxV, MaxV), Clamp(old(vel.y) + dy * 0.25, -MaxV, MaxV))
      ensures -MaxV <= vel.x <= MaxV && -MaxV <= vel.y <= MaxV
      ensures down == old(down) && off == old(off) && cursor == old(cursor) && mshift == old(mshift)
      ensures lx == old(lx) && ly == old(ly) && lastT == old(lastT) && revealedOnce == old(revealedOnce)
    {
      var dx := WheelDelta(deltaX) * WheelGain;
      var dy := WheelDelta(deltaY) * WheelGain;
      target := P2(target.x + dx, target.y + dy);
      vel := P2(Clamp(vel.x + dx * 0.25, -MaxV, MaxV), Clamp(vel.y + dy * 0.25, -MaxV, MaxV));
    }

    /** The centre tile's reveal completed: no tile reveals again. */
    method OnRevealed()
      modifies this`revealedOnce
      ensures revealedOnce
      ensures forall t :: !DoReveal(revealedOnce, t)
    {
      revealedOnce := true;
    }
  }
}
