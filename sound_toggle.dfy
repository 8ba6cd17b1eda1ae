/** The sound toggle's icon: a rows x cols grid of dots on a 20 x 20 box,
    each with a wave phase and a weight that favours the centre, whose
    radius and opacity pulse every animation frame, strongly while the
    sound is on and faintly while it is off. sin and pow are left to the
    caller: each frame receives the shaped wave value of every dot. */
module SoundToggle {
  import opened Common

  const BoxW: real := 20.0
  const BoxH: real := 20.0
  const MarginX: real := 1.0
  const MarginY: real := 4.0
  const SpeedOn: real := 0.20
  const SpeedOff: real := 0.06
  const BaseRadius: real := 0.9
  const MinRadius: real := 0.2
  const MinOpacity: real := 0.12

  /** `isOn`: there is a provider, it is playing and not muted. */
  datatype AudioState = AudioState(playing: bool, muted: bool)

  function IsOn(audio: Option<AudioState>): (on: bool)
    ensures on <==> audio.Some? && audio.value.playing && !audio.value.muted
  {
    match audio
    case None => false
    case Some(a) => a.playing && !a.muted
  }

  /* ---------------- layout ---------------- */

  datatype Dot = Dot(cx: real, cy: real, phase: real, weight: real)

  /** Column i's x: evenly spaced from the left margin to the right one. */
  function DotX(cols: nat, i: nat): real
    requires cols >= 2
  {
    MarginX + (i as real * (BoxW - MarginX * 2.0)) / (cols - 1) as real
  }

  /** Row r's y: evenly spaced from the top margin to the bottom one. */
  function DotY(rows: nat, r: nat): real
    requires rows >= 2
  {
    MarginY + (r as real * (BoxH - MarginY * 2.0)) / (rows - 1) as real
  }

  /** The first and last columns sit on the margins and neighbours are
      equally far apart; the same for rows. */
  lemma SpacingEven(cols: nat, rows: nat, i: nat, r: nat)
    requires cols >= 2 && rows >= 2
    ensures DotX(cols, 0) == MarginX && DotX(cols, cols - 1) == BoxW - MarginX
    ensures DotY(rows, 0) == MarginY && DotY(rows, rows - 1) == BoxH - MarginY
    ensures DotX(cols, i + 1) - DotX(cols, i) == (BoxW - MarginX * 2.0) / (cols - 1) as real
    ensures DotY(rows, r + 1) - DotY(rows, r) == (BoxH - MarginY * 2.0) / (rows - 1) as real
  {
    var n, m := (cols - 1) as real, (rows - 1) as real;
    assert (n * 18.0) / n == 18.0;
    assert (m * 12.0) / m == 12.0;
    assert ((i + 1) as real * 18.0) / n - (i as real * 18.0) / n == 18.0 / n;
    assert ((r + 1) as real * 12.0) / m - (r as real * 12.0) / m == 12.0 / m;
  }

  /** How central position i of n is: 1 in the middle, 0 at both ends. */
  function Centrality(i: nat, n: nat): (c: real)
    requires n >= 2 && i < n
    ensures 0.0 <= c <= 1.0
  {
    var h := (n - 1) as real / 2.0;
    var a := i as real - h;
    var q := a / h;
    UnitOffset(a, h, q);
    1.0 - Abs(q)
  }

  /** An offset within [-h, h] over h lies in [-1, 1]. */
  lemma UnitOffset(a: real, h: real, q: real)
    requires h > 0.0 && q == a / h && -h <= a <= h
    ensures -1.0 <= q <= 1.0
  {
    assert q * h == a;
    assert (1.0 - q) * h == h - a;
    NonNegFactor(1.0 - q, h, h - a);
    assert (1.0 + q) * h == h + a;
    NonNegFactor(1.0 + q, h, h + a);
  }

  /** The row's preference: `1 - min(1, 0.9 |ny|)`, ny being 0 for a single
      row. */
  function RowPreference(rows: nat, r: nat): (p: real)
    requires r < rows
    ensures 0.1 <= p <= 1.0
  {
    if rows > 1 then
      var c := Centrality(r, rows);
      1.0 - Min(1.0, (1.0 - c) * 0.9)
    else 1.0
  }

  /** The dot's weight. */
  function Weight(cols: nat, rows: nat, i: nat, r: nat): real
    requires cols >= 2 && i < cols && r < rows
  {
    0.5 + 0.5 * (0.7 * Centrality(i, cols) + 0.3 * RowPreference(rows, r))
  }

  /** Every weight lies in [0.5, 1]. */
  lemma WeightBounds(cols: nat, rows: nat, i: nat, r: nat)
    requires cols >= 2 && i < cols && r < rows
    ensures 0.5 <= Weight(cols, rows, i, r) <= 1.0
  {
    var c, p := Centrality(i, cols), RowPreference(rows, r);
    assert 0.0 <= 0.7 * c + 0.3 * p <= 1.0;
  }

  /** The wave phase: 0.55 per column plus a small per-row offset. */
  function Phase(rows: nat, i: nat, r: nat): real
  {
    i as real * 0.55 + (r as real - (rows - 1) as real / 2.0) * 0.22
  }

  /** Dot k in row-major order. */
  function DotAt(cols: nat, rows: nat, k: nat): Dot
    requires cols >= 2 && rows >= 2 && k < cols * rows
  {
    var i, r := k % cols, k / cols;
    assert r < rows by {
      DivBelow(k, cols, rows);
    }
    Dot(DotX(cols, i), DotY(rows, r), Phase(rows, i, r), Weight(cols, rows, i, r))
  }

  /** Row r, column i is entry r * cols + i of the row-major order. */
  lemma RowMajor(k: nat, cols: nat, rows: nat, r: nat, i: nat)
    requires cols >= 2 && rows >= 2 && k == r * cols + i && i < cols && r < rows
    ensures k < cols * rows
    ensures DotAt(cols, rows, k) == Dot(DotX(cols, i), DotY(rows, r), Phase(rows, i, r), Weight(cols, rows, i, r))
  {
    DivModUnique(k, cols, r, i);
    assert k < (r + 1) * cols;
    assert rows * cols - (r + 1) * cols == (rows - r - 1) * cols;
    NonNegMul(rows - r - 1, cols);
  }

  /** `dotsData`: row by row, each row left to right. */
  method Dots(cols: nat, rows: nat) returns (out: seq<Dot>)
    requires cols >= 2 && rows >= 2
    ensures |out| == rows * cols
    ensures forall k :: 0 <= k < |out| ==> out[k] == DotAt(cols, rows, k)
  {
    out := [];
    var r := 0;
    while r < rows
      invariant 0 <= r <= rows && |out| == r * cols && |out| <= cols * rows
      invariant forall k :: 0 <= k < |out| ==> out[k] == DotAt(cols, rows, k)
    {
      var i := 0;
      while i < cols
        invariant 0 <= i <= cols && |out| == r * cols + i && |out| <= cols * rows
        invariant forall k :: 0 <= k < |out| ==> out[k] == DotAt(cols, rows, k)
      {
        var k := |out|;
        var d := Dot(DotX(cols, i), DotY(rows, r), Phase(rows, i, r), Weight(cols, rows, i, r));
        RowMajor(k, cols, rows, r, i);
        out := out + [d];
        i := i + 1;
      }
      assert |out| == (r + 1) * cols;
      r := r + 1;
    }
  }

  /* ---------------- the wave ---------------- */

  /** The dot's radius for an envelope level `env` and a shaped wave value
      `s`: never below 0.2. */
  function Radius(on: bool, env: real, s: real, weight: real): (r: real)
    ensures r >= MinRadius
    ensures 0.0 <= env <= 1.0 && -1.0 <= s <= 1.0 && 0.0 <= weight <= 1.0 ==>
      r <= BaseRadius + (if on then 1.05 else 0.06)
  {
    var amp := (if on then 1.05 else 0.06) * env;
    WaveBound(amp, s, weight, if on then 1.05 else 0.06, env);
    Max(MinRadius, BaseRadius + amp * s * weight)
  }

  /** The dot's opacity: kept within [0.12, 1]. */
  function Opacity(on: bool, s: real, weight: real): (o: real)
    ensures MinOpacity <= o <= 1.0
  {
    Max(MinOpacity, Min(1.0, (if on then 0.85 else 0.45) + (if on then 0.22 else 0.06) * s * weight))
  }

  lemma WaveBound(amp: real, s: real, w: real, top: real, env: real)
    requires amp == top * env && top >= 0.0
    ensures 0.0 <= env <= 1.0 && -1.0 <= s <= 1.0 && 0.0 <= w <= 1.0 ==> amp * s * w <= top
  {
    if 0.0 <= env <= 1.0 && -1.0 <= s <= 1.0 && 0.0 <= w <= 1.0 {
      MulUnitBound(top, env);
      var sw := s * w;
      MulUnitBound(s, w);
      var p := amp * s * w;
      assert p == amp * sw;
      ProductBelow(amp, sw, p);
    }
  }

  /** Scaling a non-negative number by at most 1 does not exceed it. */
  lemma ProductBelow(a: real, b: real, p: real)
    requires p == a * b && 0.0 <= a && b <= 1.0
    ensures p <= a
  {
    assert a - p == a * (1.0 - b);
    NonNegProduct(a, 1.0 - b);
  }

  /** The wave effect (lines 99-134): it is re-run whenever `isOn` or the
      dot data change, and each run starts its own `phase` at 0 and
      captures the `isOn` it was started with. */
  class Wave {
    var phase: real
    /** The `isOn` the running effect captured. */
    var on: bool

    constructor (on: bool)
      ensures phase == 0.0 && this.on == on
    {
      phase, this.on := 0.0, on;
    }

    /** The effect re-runs (a new `isOn` or new dot data): the old frame
      loop is cancelled and the new one starts from phase 0. */
    method Restart(on: bool)
      modifies this
      ensures phase == 0.0 && this.on == on
    {
      phase, this.on := 0.0, on;
    }

    /** One frame: the phase advances (faster when on) and every dot gets
      its radius and opacity; `shaped[k]` is dot k's shaped sine at the new
      phase. */
    method Tick(env: real, dots: seq<Dot>, shaped: seq<real>) returns (radii: seq<real>, opacities: seq<real>)
      requires |shaped| == |dots|
      modifies this`phase
      ensures phase == old(phase) + (if on then SpeedOn else SpeedOff)
      ensures |radii| == |dots| && |opacities| == |dots|
      ensures forall k :: 0 <= k < |dots| ==>
        radii[k] == Radius(on, env, shaped[k], dots[k].weight) && opacities[k] == Opacity(on, shaped[k], dots[k].weight)
    {
      phase := phase + (if on then SpeedOn else SpeedOff);
      radii, opacities := [], [];
      var k := 0;
      while k < |dots|
        invariant 0 <= k <= |dots| && |radii| == k && |opacities| == k
        invariant forall j :: 0 <= j < k ==>
          radii[j] == Radius(on, env, shaped[j], dots[j].weight) && opacities[j] == Opacity(on, shaped[j], dots[j].weight)
      {
        radii := radii + [Radius(on, env, shaped[k], dots[k].weight)];
        opacities := opacities + [Opacity(on, shaped[k], dots[k].weight)];
        k := k + 1;
      }
    }
  }

  /** Toggling the sound restarts the wave: two frames while off, then a
      toggle and one frame, leave the phase at one "on" step, not three
      steps' worth of accumulated phase. */
  method ToggleRestartsPhase() returns (phase: real)
    ensures phase == SpeedOn
  {
    var w := new Wave(false);
    var _, _ := w.Tick(1.0, [], []);
    var _, _ := w.Tick(1.0, [], []);
    w.Restart(true);
    var _, _ := w.Tick(1.0, [], []);
    phase := w.phase;
  }
}
