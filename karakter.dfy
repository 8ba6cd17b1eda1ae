/** The animated 3D character: mouse-driven tilt, a stepped pixel-glitch
    reveal, a throttled switch sound, random clip switching among the
    allowed clips, and auto-fitting the model's height to the view.
    Animation frames are explicit `Frame` events, performance.now() is a
    `now` input in milliseconds, and Math.random draws are inputs. */
module Karakter {
  import opened Common
  import Sfx

  /** Math.PI as the double it is. */
  const MathPi: real := 3.141592653589793115997963468544185161590576171875

  const MaxTiltX: real := 0.15
  const MaxTiltY: real := 0.30
  const RotDamping: real := 0.08
  const FitHeightRatio: real := 0.55
  const ScaleMultiplier: real := 1.3
  const RevealDuration: real := 0.7
  const StartPixels: real := 24.0
  const EndPixels: real := 1.0
  const PixelSteps: nat := 4
  const CaStart: real := 0.0015
  const CaEnd: real := 0.0001
  const ThrottleMs: real := 120.0
  const SfxVolume: real := 0.6
  const HoverSfxVolume: real := 0.45
  const AllowedClips: seq<string> := ["walk", "idle", "win"]

  datatype Vec3 = Vec3(x: real, y: real, z: real)

  /* ---------------- degrees ---------------- */

  function DegToRad(d: real): (r: real)
    ensures d == 0.0 ==> r == 0.0
    ensures d == 180.0 ==> r == MathPi
    ensures r * 180.0 == d * MathPi
  {
    d * (MathPi / 180.0)
  }

  /** `deg`: each component converted to radians. */
  function Deg(v: Vec3): (r: Vec3)
    ensures r.x * 180.0 == v.x * MathPi && r.y * 180.0 == v.y * MathPi && r.z * 180.0 == v.z * MathPi
  {
    Vec3(DegToRad(v.x), DegToRad(v.y), DegToRad(v.z))
  }

  /** The base rotation deg([0, 180, 0]) is a half turn about y. */
  lemma BaseRotationIsHalfTurn()
    ensures Deg(Vec3(0.0, 180.0, 0.0)) == Vec3(0.0, MathPi, 0.0)
  {
    var r := Deg(Vec3(0.0, 180.0, 0.0));
    assert r.y == 180.0 * (MathPi / 180.0);
  }

  /* ---------------- switch sound ---------------- */

  /** The gain: the global volume (1 when unknown) clamped to [0, 1],
      times the sound's base volume. */
  function SfxGain(volume: Option<real>, baseVolume: real): (g: real)
    ensures 0.0 <= baseVolume ==> 0.0 <= g <= baseVolume
    ensures volume.None? ==> g == baseVolume
    ensures volume.Some? && 0.0 <= volume.value <= 1.0 ==> g == volume.value * baseVolume
  {
    var master := Clamp(if volume.Some? then volume.value else 1.0, 0.0, 1.0);
    var g := master * baseVolume;
    Sfx.ScaledBelow(master, baseVolume, g);
    g
  }

  /** `useSwitchSfx`'s player: the context and gain exist from mount, the
      buffer once decoded. */
  class SwitchSfx {
    const setting: Sfx.RateSetting
    var hasContext: bool
    var hasBuffer: bool
    var lastPlay: real
    /** Playback rates of the sources started so far. */
    var played: seq<real>

    constructor (setting: Sfx.RateSetting)
      ensures this.setting == setting && hasContext && !hasBuffer && lastPlay == 0.0 && played == []
    {
      this.setting := setting;
      hasContext, hasBuffer, lastPlay, played := true, false, 0.0, [];
    }

    /** The buffer finished decoding. */
    method BufferDecoded()
      modifies this`hasBuffer
      ensures hasBuffer
    {
      hasBuffer := true;
    }

    /** A play request. When muted nothing happens; within 120 ms of the
      last accepted request it is dropped; otherwise the request is
      accepted (even if there is no buffer yet to play) and, with a
      context and buffer, a source starts at a rate in the range. */
    method Play(muted: bool, now: real, r: real)
      requires 0.0 <= r < 1.0
      modifies this`lastPlay, this`played
      ensures muted || now - old(lastPlay) < ThrottleMs ==> lastPlay == old(lastPlay) && played == old(played)
      ensures !muted && now - old(lastPlay) >= ThrottleMs ==> lastPlay == now
      ensures !muted && now - old(lastPlay) >= ThrottleMs && hasContext && hasBuffer ==>
        played == old(played) + [Sfx.PickRate(setting, r)]
      ensures !(hasContext && hasBuffer) ==> played == old(played)
    {
      if muted {
        return;
      }
      if now - lastPlay < ThrottleMs {
        return;
      }
      lastPlay := now;
      if !hasContext || !hasBuffer {
        return;
      }
      played := played + [Sfx.PickRate(setting, r)];
    }
  }

  /* ---------------- pixel-glitch reveal ---------------- */

  /** Progress u = min(t / REVEAL_DURATION, 1) for t seconds since the
      trigger. */
  function Progress(t: real): (u: real)
    ensures u <= 1.0
    ensures 0.0 <= t ==> 0.0 <= u
    ensures t >= RevealDuration ==> u == 1.0
  {
    Min(t / RevealDuration, 1.0)
  }

  /** Once the reveal's duration has passed (in ms), the progress is
      complete and the pixels are at their finest. */
  lemma RevealEnds(elapsedMs: real)
    ensures elapsedMs >= RevealDuration * 1000.0 ==>
      Progress(elapsedMs / 1000.0) == 1.0 && Granularity(1.0, PixelSteps) == EndPixels
  {
    if elapsedMs >= RevealDuration * 1000.0 {
      assert elapsedMs / 1000.0 >= RevealDuration;
      assert Floor(1.0 * (PixelSteps - 1) as real) == 3;
    }
  }

  /** The pixel granularity: with more than one step, u is first snapped
      down to one of `steps` evenly spaced values. */
  function Granularity(u: real, steps: nat): (g: real)
    requires 0.0 <= u <= 1.0
    ensures EndPixels <= g <= StartPixels
    ensures u == 0.0 ==> g == StartPixels
    ensures u == 1.0 ==> g == EndPixels
  {
    if steps > 1 then
      var k := Floor(u * (steps - 1) as real);
      StepIndexRange(u, steps);
      assert u == 1.0 ==> StepAt(k, steps) == 1.0 by {
        if u == 1.0 {
          assert k == steps - 1;
          DivSelf((steps - 1) as real);
        }
      }
      Lerp(StartPixels, EndPixels, StepAt(k, steps))
    else Lerp(StartPixels, EndPixels, u)
  }

  function StepAt(k: int, steps: nat): real
    requires steps > 1
  {
    k as real / (steps - 1) as real
  }

  lemma StepIndexRange(u: real, steps: nat)
    requires 0.0 <= u <= 1.0 && steps > 1
    ensures 0 <= Floor(u * (steps - 1) as real) < steps
    ensures 0.0 <= StepAt(Floor(u * (steps - 1) as real), steps) <= 1.0
  {
    var n := (steps - 1) as real;
    var k := Floor(u * n);
    MulUnitBound(n, u);
    assert u * n == n * u;
    assert k as real <= u * n <= n;
    assert 0.0 <= u * n;
    UnitFraction(k as real, n);
  }

  /** With four steps the reveal shows exactly four pixel sizes: 24,
      24 - 23/3, 24 - 46/3 and 1. */
  lemma GranularityLevels(u: real)
    requires 0.0 <= u <= 1.0
    ensures var g := Granularity(u, PixelSteps);
      g == 24.0 || g == 24.0 - 23.0 / 3.0 || g == 24.0 - 46.0 / 3.0 || g == 1.0
  {
    var k := Floor(u * 3.0);
    StepIndexRange(u, PixelSteps);
    assert 0 <= k <= 3;
    assert Granularity(u, PixelSteps) == Lerp(StartPixels, EndPixels, k as real / 3.0);
  }

  /** Later frames never show coarser pixels than earlier ones. */
  lemma GranularityMonotone(u1: real, u2: real, steps: nat)
    requires 0.0 <= u1 <= u2 <= 1.0
    ensures Granularity(u2, steps) <= Granularity(u1, steps)
  {
    if steps > 1 {
      var k1 := GranularityAt(u1, steps);
      var k2 := GranularityAt(u2, steps);
      var n := (steps - 1) as real;
      FloorOfScaledMonotone(u1, u2, n);
      assert k1 == Floor(u1 * n) && k2 == Floor(u2 * n);
      assert k1 <= k2;
      StepsOrdered(k1, k2, steps);
      LerpDown(StepAt(k1, steps), StepAt(k2, steps));
    } else {
      LerpDown(u1, u2);
    }
  }

  /** The step index at progress u and the granularity it gives. */
  lemma GranularityAt(u: real, steps: nat) returns (k: int)
    requires 0.0 <= u <= 1.0 && steps > 1
    ensures k == Floor(u * (steps - 1) as real) && 0 <= k < steps
    ensures Granularity(u, steps) == Lerp(StartPixels, EndPixels, StepAt(k, steps))
  {
    k := Floor(u * (steps - 1) as real);
    StepIndexRange(u, steps);
  }

  lemma StepsOrdered(k1: int, k2: int, steps: nat)
    requires 0 <= k1 <= k2 < steps && steps > 1
    ensures 0.0 <= StepAt(k1, steps) <= StepAt(k2, steps) <= 1.0
  {
    var n := (steps - 1) as real;
    DivMonotone(k1 as real, k2 as real, n);
    DivMonotone(0.0, k1 as real, n);
    DivMonotone(k2 as real, n, n);
  }

  lemma FloorOfScaledMonotone(u1: real, u2: real, n: real)
    requires u1 <= u2 && n >= 0.0
    ensures Floor(u1 * n) <= Floor(u2 * n)
  {
    assert u2 * n - u1 * n == (u2 - u1) * n;
    NonNegProduct(u2 - u1, n);
  }

  lemma LerpDown(s1: real, s2: real)
    requires 0.0 <= s1 <= s2 <= 1.0
    ensures Lerp(StartPixels, EndPixels, s2) <= Lerp(StartPixels, EndPixels, s1)
  {
  }

  /** RevealFX's state: whether the effect is mounted, when the current
      reveal started, and the current granularity and chromatic offset. */
  class RevealFx {
    var enabled: bool
    var start: real
    var granularity: real
    var chroma: real

    constructor (now: real)
      ensures enabled && start == now && granularity == StartPixels && chroma == CaStart
    {
      enabled, start, granularity, chroma := true, now, StartPixels, CaStart;
    }

    /** A new trigger (a clip switch) restarts the reveal. */
    method Trigger(now: real)
      modifies this
      ensures enabled && start == now && granularity == StartPixels && chroma == CaStart
    {
      start := now;
      enabled := true;
      chroma := CaStart;
      granularity := StartPixels;
    }

    /** One frame: nothing once disabled; otherwise granularity and
      chromatic offset follow the progress, and at full progress the
      effect disables itself. */
    method Frame(now: real)
      requires now >= start
      modifies this
      ensures start == old(start)
      ensures !old(enabled) ==> !enabled && granularity == old(granularity) && chroma == old(chroma)
      ensures old(enabled) ==>
        var u := Progress((now - start) / 1000.0);
        && granularity == Granularity(u, PixelSteps)
        && chroma == Lerp(CaStart, CaEnd, u)
        && (enabled <==> u < 1.0)
      ensures old(enabled) && now - start >= RevealDuration * 1000.0 ==> !enabled && granularity == EndPixels
    {
      if !enabled {
        return;
      }
      var u := Progress((now - start) / 1000.0);
      RevealEnds(now - start);
      granularity := Granularity(u, PixelSteps);
      chroma := Lerp(CaStart, CaEnd, u);
      if u >= 1.0 {
        enabled := false;
      }
    }
  }

  /* ---------------- follow rig ---------------- */

  /** The pointer position mapped to [-1, 1] on each axis, y up. */
  function MouseNdc(clientX: real, clientY: real, innerW: real, innerH: real): (m: (real, real))
    requires innerW > 0.0 && innerH > 0.0
    ensures 0.0 <= clientX <= innerW ==> -1.0 <= m.0 <= 1.0
    ensures 0.0 <= clientY <= innerH ==> -1.0 <= m.1 <= 1.0
  {
    RatioBound(clientX, innerW);
    RatioBound(clientY, innerH);
    ((clientX / innerW - 0.5) * 2.0, (clientY / innerH - 0.5) * -2.0)
  }

  lemma RatioBound(a: real, b: real)
    requires b > 0.0
    ensures 0.0 <= a <= b ==> 0.0 <= a / b <= 1.0
  {
    if 0.0 <= a <= b {
      UnitFraction(a, b);
    }
  }

  /** The rig's rotation. */
  class FollowRig {
    const base: Vec3
    var rot: Vec3

    constructor (base: Vec3)
      ensures this.base == base && rot == Vec3(0.0, 0.0, 0.0)
    {
      this.base := base;
      rot := Vec3(0.0, 0.0, 0.0);
    }

    /** One frame: x and y rotation close ROT_DAMPING of the gap to the
      base rotation tilted by the pointer; z is pinned to the base. */
    method Frame(mouseX: real, mouseY: real)
      modifies this`rot
      ensures var tx, ty := base.x + mouseY * MaxTiltX, base.y + mouseX * MaxTiltY;
        && tx - rot.x == (1.0 - RotDamping) * (tx - old(rot.x))
        && ty - rot.y == (1.0 - RotDamping) * (ty - old(rot.y))
        && rot.z == base.z
      ensures var tx, ty := base.x + mouseY * MaxTiltX, base.y + mouseX * MaxTiltY;
        rot == Vec3(Approach(old(rot.x), tx, RotDamping), Approach(old(rot.y), ty, RotDamping), base.z)
    {
      var tx := base.x + mouseY * MaxTiltX;
      var ty := base.y + mouseX * MaxTiltY;
      rot := Vec3(Approach(rot.x, tx, RotDamping), Approach(rot.y, ty, RotDamping), base.z);
    }
  }

  /* ---------------- clips ---------------- */

  /** ASCII lower-casing (other letters are not folded in this model). */
  function Lower(s: string): (r: string)
    ensures |r| == |s|
    ensures forall i :: 0 <= i < |s| ==> ('A' <= s[i] <= 'Z' ==> r[i] as int == s[i] as int + 32)
    ensures forall i :: 0 <= i < |s| ==> (!('A' <= s[i] <= 'Z') ==> r[i] == s[i])
  {
    seq(|s|, i requires 0 <= i < |s| => if 'A' <= s[i] <= 'Z' then (s[i] as int + 32) as char else s[i])
  }

  /** `nameMap`: each clip name under its lower-cased key, entered in
      order, so that of two names sharing a key the later one wins. */
  function NameMap(names: seq<string>): map<string, string>
  {
    if |names| == 0 then map[]
    else
      var n := |names| - 1;
      NameMap(names[..n])[Lower(names[n]) := names[n]]
  }

  /** Name i is the last one whose key is k. */
  predicate LastWithKey(names: seq<string>, k: string, i: int)
  {
    0 <= i < |names| && Lower(names[i]) == k && forall j :: i < j < |names| ==> Lower(names[j]) != k
  }

  /** Name i has key k. */
  predicate HasKey(names: seq<string>, k: string, i: int)
  {
    0 <= i < |names| && Lower(names[i]) == k
  }

  /** The map's keys are exactly the lower-cased names. */
  lemma {:induction false} NameMapKeys(names: seq<string>, k: string)
    ensures k in NameMap(names) <==> exists i :: HasKey(names, k, i)
  {
    if |names| > 0 {
      var n := |names| - 1;
      var front := names[..n];
      NameMapKeys(front, k);
      if k in NameMap(front) {
        var i :| HasKey(front, k, i);
        assert HasKey(names, k, i);
      } else if k != Lower(names[n]) {
        forall i | 0 <= i < |names|
          ensures !HasKey(names, k, i)
        {
          if i < n {
            assert !HasKey(front, k, i);
          }
        }
      } else {
        assert HasKey(names, k, n);
      }
    }
  }

  /** Each key maps to the last name that has it. */
  lemma {:induction false} NameMapLastWins(names: seq<string>, k: string)
    requires k in NameMap(names)
    ensures exists i :: LastWithKey(names, k, i) && NameMap(names)[k] == names[i]
  {
    var n := |names| - 1;
    var front := names[..n];
    if k == Lower(names[n]) {
      assert LastWithKey(names, k, n);
    } else {
      NameMapLastWins(front, k);
      var i :| LastWithKey(front, k, i) && NameMap(front)[k] == front[i];
      assert LastWithKey(names, k, i);
    }
  }

  /** Builds `nameMap` one clip at a time. */
  method BuildNameMap(names: seq<string>) returns (m: map<string, string>)
    ensures m == NameMap(names)
  {
    m := map[];
    var i := 0;
    while i < |names|
      invariant 0 <= i <= |names|
      invariant m == NameMap(names[..i])
    {
      assert names[..i + 1][..i] == names[..i];
      m := m[Lower(names[i]) := names[i]];
      i := i + 1;
    }
    assert names[..i] == names;
  }

  /** The first clip: the name matching `initialClip` case-insensitively,
      else the first name (None when there is none). */
  function InitialClip(nameMap: map<string, string>, names: seq<string>, initialClip: string): (c: Option<string>)
    ensures Lower(initialClip) in nameMap ==> c == Some(nameMap[Lower(initialClip)])
    ensures Lower(initialClip) !in nameMap && |names| > 0 ==> c == Some(names[0])
    ensures c.None? <==> Lower(initialClip) !in nameMap && |names| == 0
  {
    if Lower(initialClip) in nameMap then Some(nameMap[Lower(initialClip)])
    else if |names| > 0 then Some(names[0])
    else None
  }

  /** The allowed clips present in the model, in the order walk, idle,
      win. */
  function Candidates(nameMap: map<string, string>, allowed: seq<string>): (c: seq<string>)
    ensures |c| <= |allowed|
    ensures forall x :: x in c ==> exists a :: a in allowed && a in nameMap && nameMap[a] == x
    ensures forall a :: a in allowed && a in nameMap && nameMap[a] != "" ==> nameMap[a] in c
  {
    if |allowed| == 0 then []
    else
      var rest := Candidates(nameMap, allowed[1..]);
      if allowed[0] in nameMap && nameMap[allowed[0]] != "" then [nameMap[allowed[0]]] + rest else rest
  }

  /** The next clip on a click: the first draw, redrawn while it equals
      the current clip as long as there is another candidate. Draws index
      the candidates; the random source is assumed to eventually yield a
      different candidate. */
  method PickNext(candidates: seq<string>, current: Option<string>, draws: seq<nat>) returns (next: string)
    requires |candidates| > 0 && |draws| > 0
    requires forall k :: 0 <= k < |draws| ==> draws[k] < |candidates|
    requires |candidates| > 1 && current == Some(candidates[draws[0]]) ==>
      exists k :: 1 <= k < |draws| && Some(candidates[draws[k]]) != current
    ensures next in candidates
    ensures |candidates| > 1 ==> Some(next) != current
    ensures |candidates| == 1 ==> next == candidates[0]
  {
    next := candidates[draws[0]];
    if Some(next) == current && |candidates| > 1 {
      var k := 1;
      next := candidates[draws[k]];
      while Some(next) == current
        invariant 1 <= k < |draws|
        invariant next == candidates[draws[k]]
        invariant exists p :: k <= p < |draws| && Some(candidates[draws[p]]) != current
        decreases |draws| - k
      {
        k := k + 1;
        next := candidates[draws[k]];
      }
    }
  }

  /** The clip player's state: the current clip and how many switches
      (each retriggering the reveal and the switch sound) happened. */
  class ClipPlayer {
    var current: Option<string>
    var switches: nat
    var hoverPlayed: bool
    var hoverSounds: nat

    constructor (initial: Option<string>)
      ensures current == initial && switches == 0 && !hoverPlayed && hoverSounds == 0
    {
      current, switches, hoverPlayed, hoverSounds := initial, 0, false, 0;
    }

    /** A click: with no animations or no allowed clip nothing switches; a
      clip without an action is not switched to; otherwise the picked clip
      becomes current. */
    method Click(hasAnimations: bool, candidates: seq<string>, actions: set<string>, draws: seq<nat>)
      requires hasAnimations && |candidates| > 0 ==>
        && |draws| > 0 && (forall k :: 0 <= k < |draws| ==> draws[k] < |candidates|)
        && (|candidates| > 1 && current == Some(candidates[draws[0]]) ==>
              exists k :: 1 <= k < |draws| && Some(candidates[draws[k]]) != current)
      modifies this`current, this`switches
      ensures !hasAnimations || |candidates| == 0 ==> current == old(current) && switches == old(switches)
      ensures switches == old(switches) || switches == old(switches) + 1
      ensures switches == old(switches) + 1 ==>
        current.Some? && current.value in candidates && current.value in actions
        && (|candidates| > 1 ==> current != old(current))
      ensures switches == old(switches) ==> current == old(current)
    {
      if !hasAnimations || |candidates| == 0 {
        return;
      }
      var next := PickNext(candidates, current, draws);
      if next !in actions {
        return;
      }
      current := Some(next);
      switches := switches + 1;
    }

    /** Pointer over: the hover sound plays once per hover. */
    method PointerOver()
      modifies this`hoverPlayed, this`hoverSounds
      ensures hoverPlayed
      ensures hoverSounds == old(hoverSounds) + (if old(hoverPlayed) then 0 else 1)
    {
      if !hoverPlayed {
        hoverSounds := hoverSounds + 1;
        hoverPlayed := true;
      }
    }

    /** Pointer out or leave: the next hover may sound again. */
    method PointerOut()
      modifies this`hoverPlayed
      ensures !hoverPlayed
    {
      hoverPlayed := false;
    }
  }

  /* ---------------- auto-fit ---------------- */

  /** The view height at the camera's distance, given tan(fov / 2). */
  function WorldHeight(tanHalfFov: real, distance: real): real
  {
    2.0 * tanHalfFov * distance
  }

  /** The fitted scale: target height over the model height (at least
      1e-6), times the multiplier. */
  function FittedScale(targetH: real, sizeY: real, multiplier: real): (s: real)
    ensures sizeY >= 0.000001 ==> s * sizeY == targetH * multiplier
  {
    var d := Max(sizeY, 0.000001);
    assert (targetH / d) * d == targetH;
    (targetH / d) * multiplier
  }

  /** The ground sits half the fitted model height below its centre. */
  function GroundY(sizeY: real, fitted: real): real
  {
    -0.5 * sizeY * fitted
  }

  /** For a model of positive height the fitted model is exactly
      multiplier x FIT_HEIGHT_RATIO of the view tall, and the ground is
      half of that below the centre. */
  lemma FitFillsView(tanHalfFov: real, distance: real, sizeY: real)
    requires sizeY >= 0.000001
    ensures var targetH := WorldHeight(tanHalfFov, distance) * FitHeightRatio;
      var s := FittedScale(targetH, sizeY, ScaleMultiplier);
      && s * sizeY == targetH * ScaleMultiplier
      && GroundY(sizeY, s) == -0.5 * targetH * ScaleMultiplier
  {
    var targetH := WorldHeight(tanHalfFov, distance) * FitHeightRatio;
    var s := FittedScale(targetH, sizeY, ScaleMultiplier);
    assert GroundY(sizeY, s) == -0.5 * (s * sizeY);
  }
}
